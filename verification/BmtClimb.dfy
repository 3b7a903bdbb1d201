/**
 The steps of a goroutine at an inner node: storing, toggling and combining keep the invariant.
 */
module BmtClimb {
  import opened BmtReference
  import opened BmtMachine
  import opened BmtInvariant

  /** What a goroutine at an inner node `p`, holding the output of its child `y`, relies on. */
  ghost predicate AtNode(w: Plan, init: map<Pos, Node>, s: State, ph: Phases, g: nat, p: Pos, y: Pos) {
    && w.Valid()
    && g < |w.x.segs| == |s.procs|
    && p.h > 0 && Active(w, p) && Active(w, y) && y.h < w.root && Parent(y) == p && Child(p, IsLeft(y)) == y
    && (!IsLeft(y) ==> Balanced(w, p))
    && Holds(ph(y), g)
    && PhaseOk(w, s, ph, y) && NodeOk(w, init, s, ph, p)
    && p in init && (Balanced(w, p) ==> CounterReady(init[p].state))
  }

  lemma EnterNode(w: Plan, init: map<Pos, Node>, s: State, ph: Phases, g: nat, p: Pos, l: bool)
    requires Inv(w, init, s, ph) && g < |s.procs| && p.h > 0 && Active(w, p) && Active(w, Child(p, l)) && Holds(ph(Child(p, l)), g)
    ensures AtNode(w, init, s, ph, g, p, Child(p, l)) && IsLeft(Child(p, l)) == l
  {
    var y := Child(p, l);
    assert PhaseOk(w, s, ph, y) && NodeOk(w, init, s, ph, p);
    ActiveParent(w, y);
  }

  lemma SiblingSide(q: Pos, y: Pos)
    requires Parent(q) == Parent(y) && q != y
    ensures IsLeft(q) != IsLeft(y)
  {
  }

  /** Only node `p` and goroutine `g` change, and `p` keeps its flags. */
  ghost predicate Touches(s: State, s': State, g: nat, p: Pos) {
    && g < |s.procs| == |s'.procs|
    && s'.stage == s.stage && s'.launched == s.launched && s'.results == s.results
    && s'.procs == s.procs[g := s'.procs[g]]
    && p in s.nodes && p in s'.nodes
    && s'.nodes == s.nodes[p := s'.nodes[p]]
    && s'.nodes[p].unbalanced == s.nodes[p].unbalanced && s'.nodes[p].root == s.nodes[p].root
  }

  /** A step of `g` at `p` that moves only the output of the child `y` on. */
  ghost predicate ChildStep(w: Plan, init: map<Pos, Node>, s: State, s': State, ph: Phases, f: Phase, g: nat, p: Pos, y: Pos)
    requires w.Valid() && p.h > 0 && Active(w, p) && Active(w, y) && g < |w.x.segs| == |s.procs|
  {
    && Touches(s, s', g, p)
    && Slot(s'.nodes[p], !IsLeft(y)) == Slot(s.nodes[p], !IsLeft(y))
    && (IsLeft(y) || Balanced(w, p))
    && !f.Pending? && !f.Done?
    && PhaseOk(w, s', With(ph, y, f), y)
    && NodeOk(w, init, s', With(ph, y, f), p)
    && ProcOk(w, s', With(ph, y, f), g)
    && !s'.procs[g].Hashing?
  }

  lemma ChildPhases(w: Plan, init: map<Pos, Node>, s: State, s': State, ph: Phases, f: Phase, g: nat, p: Pos, y: Pos)
    requires AtNode(w, init, s, ph, g, p, y) && ChildStep(w, init, s, s', ph, f, g, p, y) && AllPhases(w, s, ph)
    ensures AllPhases(w, s', With(ph, y, f))
  {
    forall q | Active(w, q) && q != y
      ensures PhaseOk(w, s', With(ph, y, f), q)
    {
      assert PhaseOk(w, s, ph, q);
      if Holds(ph(q), g) {
        HoldsOne(w, s, ph, g, q, y);
      }
      if Parent(q) == p {
        SiblingSide(q, y);
      }
      PhaseFrame(w, s, s', ph, With(ph, y, f), g, q);
    }
  }

  lemma ChildNodes(w: Plan, init: map<Pos, Node>, s: State, s': State, ph: Phases, f: Phase, g: nat, p: Pos, y: Pos)
    requires AtNode(w, init, s, ph, g, p, y) && ChildStep(w, init, s, s', ph, f, g, p, y) && AllNodes(w, init, s, ph)
    ensures AllNodes(w, init, s', With(ph, y, f))
  {
    forall q | Active(w, q) && q.h > 0 && q != p
      ensures NodeOk(w, init, s', With(ph, y, f), q)
    {
      assert NodeOk(w, init, s, ph, q);
      assert Parent(Child(q, true)) == q && Parent(Child(q, false)) == q;
    }
  }

  lemma ChildLeaves(w: Plan, init: map<Pos, Node>, s: State, s': State, ph: Phases, f: Phase, g: nat, p: Pos, y: Pos)
    requires AtNode(w, init, s, ph, g, p, y) && ChildStep(w, init, s, s', ph, f, g, p, y) && AllLeaves(w, init, s, ph)
    ensures AllLeaves(w, init, s', With(ph, y, f))
  {
    forall k | 0 <= k < |w.x.segs|
      ensures LeafOk(w, init, s', With(ph, y, f), k)
    {
      assert LeafOk(w, init, s, ph, k);
    }
  }

  lemma ChildProcs(w: Plan, init: map<Pos, Node>, s: State, s': State, ph: Phases, f: Phase, g: nat, p: Pos, y: Pos)
    requires AtNode(w, init, s, ph, g, p, y) && ChildStep(w, init, s, s', ph, f, g, p, y) && AllProcs(w, s, ph)
    ensures AllProcs(w, s', With(ph, y, f))
  {
    forall j | 0 <= j < |w.x.segs| && j != g
      ensures ProcOk(w, s', With(ph, y, f), j)
    {
      assert ProcOk(w, s, ph, j);
      ProcFrame(w, s, s', ph, With(ph, y, f), j);
    }
  }

  lemma ChildFlags(w: Plan, init: map<Pos, Node>, s: State, s': State, ph: Phases, f: Phase, g: nat, p: Pos, y: Pos)
    requires AtNode(w, init, s, ph, g, p, y) && ChildStep(w, init, s, s', ph, f, g, p, y) && AllFlags(w, s)
    ensures AllFlags(w, s')
  {
    forall q | Active(w, q)
      ensures FlagsOk(w, s', q)
    {
      assert FlagsOk(w, s, q);
    }
  }

  lemma ChildStage(w: Plan, init: map<Pos, Node>, s: State, s': State, ph: Phases, f: Phase, g: nat, p: Pos, y: Pos)
    requires AtNode(w, init, s, ph, g, p, y) && ChildStep(w, init, s, s', ph, f, g, p, y)
    requires StageOk(w, s, ph) && RestUntouched(w, init, s)
    ensures StageOk(w, s', With(ph, y, f)) && RestUntouched(w, init, s')
  {
  }

  lemma ChildStepKeeps(w: Plan, init: map<Pos, Node>, s: State, s': State, ph: Phases, f: Phase, g: nat, p: Pos, y: Pos)
    requires Inv(w, init, s, ph) && AtNode(w, init, s, ph, g, p, y) && ChildStep(w, init, s, s', ph, f, g, p, y)
    ensures Inv(w, init, s', With(ph, y, f))
  {
    ChildPhases(w, init, s, s', ph, f, g, p, y);
    ChildNodes(w, init, s, s', ph, f, g, p, y);
    ChildLeaves(w, init, s, s', ph, f, g, p, y);
    ChildProcs(w, init, s, s', ph, f, g, p, y);
    ChildFlags(w, init, s, s', ph, f, g, p, y);
    ChildStage(w, init, s, s', ph, f, g, p, y);
  }

  /** A goroutine stores a child's output into its side of an inner node. */
  lemma StoreLocal(w: Plan, init: map<Pos, Node>, s: State, ph: Phases, g: nat, p: Pos, y: Pos)
    requires AtNode(w, init, s, ph, g, p, y) && GoroutineEnabled(w.x, s, g)
    requires s.procs[g].Storing? && s.procs[g].pos == p
    ensures ChildStep(w, init, s, GoroutineStep(w.x, s, g), ph, Stored(g), g, p, y)
  {
    var s', ph' := GoroutineStep(w.x, s, g), With(ph, y, Stored(g));
    assert Touches(s, s', g, p);
    assert PhaseOk(w, s', ph', y);
    assert ProcOk(w, s', ph', g);
    assert NodeOk(w, init, s', ph', p);
  }

  lemma StoreStep(w: Plan, init: map<Pos, Node>, s: State, ph: Phases, g: nat) returns (ph': Phases)
    requires Inv(w, init, s, ph) && GoroutineEnabled(w.x, s, g)
    requires s.procs[g].Storing? && s.procs[g].pos.h > 0
    ensures Inv(w, init, GoroutineStep(w.x, s, g), ph')
  {
    var p := s.procs[g].pos;
    var y := Child(p, s.procs[g].isLeft);
    assert ProcOk(w, s, ph, g);
    EnterNode(w, init, s, ph, g, p, s.procs[g].isLeft);
    StoreLocal(w, init, s, ph, g, p, y);
    ph' := With(ph, y, Stored(g));
    ChildStepKeeps(w, init, s, GoroutineStep(w.x, s, g), ph, Stored(g), g, p, y);
  }

  /** A goroutine that reached a node finds it marked unbalanced exactly when its right half is empty. */
  lemma UnbalancedFlag(w: Plan, init: map<Pos, Node>, s: State, ph: Phases, g: nat, p: Pos, y: Pos)
    requires AtNode(w, init, s, ph, g, p, y) && StageOk(w, s, ph) && FlagsOk(w, s, p)
    ensures s.nodes[p].unbalanced == !Balanced(w, p)
    ensures !Balanced(w, p) ==> s.nodes[p].right == []
  {
    if !Balanced(w, p) {
      assert OnPath(w, p) && OnPath(w, y);
    } else if OnPath(w, p) {
      assert w.Edge(p.h) == w.Edge(p.h - 1) / 2;
    }
  }

  /** The phase a goroutine's child output enters when the goroutine toggles. */
  ghost function AfterToggle(w: Plan, ph: Phases, p: Pos, y: Pos, g: nat): Phase
    requires w.Valid() && p.h > 0
  {
    if Balanced(w, p) && !ph(Child(p, !IsLeft(y))).Parked? then Parked else Won(g)
  }

  lemma ToggleLocal(w: Plan, init: map<Pos, Node>, s: State, ph: Phases, g: nat, p: Pos, y: Pos)
    requires AtNode(w, init, s, ph, g, p, y) && GoroutineEnabled(w.x, s, g)
    requires s.procs[g].Toggling? && s.procs[g].pos == p
    requires s.nodes[p].unbalanced == !Balanced(w, p)
    ensures ChildStep(w, init, s, GoroutineStep(w.x, s, g), ph, AfterToggle(w, ph, p, y, g), g, p, y)
  {
    var f := AfterToggle(w, ph, p, y, g);
    var s', ph' := GoroutineStep(w.x, s, g), With(ph, y, f);
    assert ph(y) == Stored(g);
    if Balanced(w, p) {
      HalvesSwap(init[p].state, s.nodes[p].state, ph(p), ph(Child(p, true)), ph(Child(p, false)));
      ToggleHalf(init[p].state, s.nodes[p].state, ph(p), ph(y), ph(Child(p, !IsLeft(y))), g);
    }
    assert Touches(s, s', g, p);
    assert PhaseOk(w, s', ph', y);
    assert ProcOk(w, s', ph', g);
    assert NodeOk(w, init, s', ph', p);
  }

  lemma ToggleStep(w: Plan, init: map<Pos, Node>, s: State, ph: Phases, g: nat) returns (ph': Phases)
    requires Inv(w, init, s, ph) && GoroutineEnabled(w.x, s, g)
    requires s.procs[g].Toggling? && s.procs[g].pos.h > 0
    ensures Inv(w, init, GoroutineStep(w.x, s, g), ph')
  {
    var p := s.procs[g].pos;
    var y := Child(p, s.procs[g].isLeft);
    assert ProcOk(w, s, ph, g) && FlagsOk(w, s, p);
    EnterNode(w, init, s, ph, g, p, s.procs[g].isLeft);
    UnbalancedFlag(w, init, s, ph, g, p, y);
    ToggleLocal(w, init, s, ph, g, p, y);
    var f := AfterToggle(w, ph, p, y, g);
    ph' := With(ph, y, f);
    ChildStepKeeps(w, init, s, GoroutineStep(w.x, s, g), ph, f, g, p, y);
  }

  /** The phases after a goroutine combined the halves of `p`. */
  ghost function Combined(w: Plan, ph: Phases, p: Pos, g: nat): Phases
    requires w.Valid() && p.h > 0
  {
    q => if q == p then Carried(g)
         else if q == Child(p, true) || (q == Child(p, false) && Balanced(w, p)) then Done
         else ph(q)
  }

  /** A goroutine about to combine the halves of `p`. */
  ghost predicate AtCombine(w: Plan, init: map<Pos, Node>, s: State, ph: Phases, g: nat, p: Pos, y: Pos) {
    && AtNode(w, init, s, ph, g, p, y)
    && s.procs[g].Combining? && s.procs[g].pos == p && ph(y) == Won(g)
    && ph(p).Pending?
    && (Balanced(w, p) ==> ph(Child(p, !IsLeft(y))).Parked?)
    && (!Balanced(w, p) ==> IsLeft(y))
  }

  lemma EnterCombine(w: Plan, init: map<Pos, Node>, s: State, ph: Phases, g: nat, p: Pos, y: Pos)
    requires AtNode(w, init, s, ph, g, p, y) && s.procs[g].Combining? && ph(y) == Won(g) && s.procs[g].pos == p
    ensures AtCombine(w, init, s, ph, g, p, y)
  {
  }

  /** What the goroutine pushes upwards is the node's value. */
  lemma CombineValue(w: Plan, init: map<Pos, Node>, s: State, ph: Phases, g: nat, p: Pos, y: Pos)
    requires AtCombine(w, init, s, ph, g, p, y)
    requires Balanced(w, p) ==> Active(w, Child(p, !IsLeft(y))) && PhaseOk(w, s, ph, Child(p, !IsLeft(y)))
    requires s.nodes[p].unbalanced == !Balanced(w, p) && (!Balanced(w, p) ==> s.nodes[p].right == [])
    requires w.x.Last() > 0
    ensures Combine(w.x.H, s.nodes[p], s.procs[g].isLeft, s.procs[g].i, s.procs[g].d) == Value(w, p.h, p.k)
  {
    var z := Child(p, !IsLeft(y));
    if Balanced(w, p) {
      assert Parent(z) == p && IsLeft(z) == !IsLeft(y);
      assert s.nodes[p].left == Value(w, p.h - 1, 2 * p.k) && s.nodes[p].right == Value(w, p.h - 1, 2 * p.k + 1);
    } else {
      assert s.nodes[p].left == Value(w, p.h - 1, 2 * p.k);
      assert s.nodes[p].left + s.nodes[p].right == s.nodes[p].left;
    }
  }

  /** A goroutine that combines a node finds the root flag exactly on the root. */
  lemma RootFlag(w: Plan, init: map<Pos, Node>, s: State, ph: Phases, g: nat, p: Pos, y: Pos)
    requires AtCombine(w, init, s, ph, g, p, y) && StageOk(w, s, ph) && FlagsOk(w, s, p)
    ensures s.nodes[p].root == (p.h == w.root)
    ensures OnPath(w, p) ==> s.stage.Running?
  {
    if OnPath(w, p) {
      var e := Child(p, !Balanced(w, p));
      assert e.k == w.Edge(p.h - 1);
      assert !ph(e).Pending?;
    }
  }

  lemma AncZero(h: nat)
    ensures Anc(0, h) == 0
  {
  }

  /** Combining touches no node, so only the goroutine and the phases around `p` change. */
  ghost predicate CombineStep(w: Plan, s: State, s': State, ph: Phases, g: nat, p: Pos)
    requires w.Valid() && p.h > 0 && Active(w, p) && g < |w.x.segs| == |s.procs|
  {
    && s' == s.(procs := s'.procs)
    && |s'.procs| == |s.procs| && s'.procs == s.procs[g := s'.procs[g]]
    && PhaseOk(w, s', Combined(w, ph, p, g), p)
    && ProcOk(w, s', Combined(w, ph, p, g), g)
  }

  lemma CombineLocal(w: Plan, init: map<Pos, Node>, s: State, ph: Phases, g: nat, p: Pos, y: Pos)
    requires AtCombine(w, init, s, ph, g, p, y) && GoroutineEnabled(w.x, s, g)
    requires s.nodes[p].root == (p.h == w.root) && PhaseOk(w, s, ph, p)
    requires Combine(w.x.H, s.nodes[p], s.procs[g].isLeft, s.procs[g].i, s.procs[g].d) == Value(w, p.h, p.k)
    requires w.x.Last() > 0
    ensures CombineStep(w, s, GoroutineStep(w.x, s, g), ph, g, p)
  {
    var s', ph' := GoroutineStep(w.x, s, g), Combined(w, ph, p, g);
    assert s' == s.(procs := s'.procs);
    if p.h < w.root {
      ActiveParent(w, p);
    } else {
      assert p.k == 0;
    }
    assert PhaseOk(w, s', ph', p);
    assert ProcOk(w, s', ph', g);
  }

  lemma CombinePhases(w: Plan, init: map<Pos, Node>, s: State, s': State, ph: Phases, g: nat, p: Pos, y: Pos)
    requires AtCombine(w, init, s, ph, g, p, y) && CombineStep(w, s, s', ph, g, p) && AllPhases(w, s, ph)
    ensures AllPhases(w, s', Combined(w, ph, p, g))
  {
    forall q | Active(w, q) && q != p
      ensures PhaseOk(w, s', Combined(w, ph, p, g), q)
    {
      assert PhaseOk(w, s, ph, q);
      if q != Child(p, true) && (q != Child(p, false) || !Balanced(w, p)) {
        if Holds(ph(q), g) {
          HoldsOne(w, s, ph, g, q, y);
        }
        PhaseFrame(w, s, s', ph, Combined(w, ph, p, g), g, q);
      }
    }
  }

  lemma CombineOwnNode(w: Plan, init: map<Pos, Node>, s: State, s': State, ph: Phases, g: nat, p: Pos, y: Pos)
    requires AtCombine(w, init, s, ph, g, p, y) && CombineStep(w, s, s', ph, g, p)
    ensures NodeOk(w, init, s', Combined(w, ph, p, g), p)
  {
  }

  lemma CombineOtherNode(w: Plan, init: map<Pos, Node>, s: State, s': State, ph: Phases, g: nat, p: Pos, y: Pos, q: Pos)
    requires AtCombine(w, init, s, ph, g, p, y) && CombineStep(w, s, s', ph, g, p)
    requires Active(w, q) && q.h > 0 && q != p && NodeOk(w, init, s, ph, q)
    ensures NodeOk(w, init, s', Combined(w, ph, p, g), q)
  {
    var ph' := Combined(w, ph, p, g);
    var a, b := Child(q, true), Child(q, false);
    assert Parent(a) == q && Parent(b) == q;
    assert Parent(Child(p, true)) == p && Parent(Child(p, false)) == p;
    assert ph'(a) == if a == p then Carried(g) else ph(a);
    assert ph'(b) == if b == p then Carried(g) else ph(b);
    assert ph'(q).Pending? == ph(q).Pending?;
  }

  lemma CombineNodes(w: Plan, init: map<Pos, Node>, s: State, s': State, ph: Phases, g: nat, p: Pos, y: Pos)
    requires AtCombine(w, init, s, ph, g, p, y) && CombineStep(w, s, s', ph, g, p) && AllNodes(w, init, s, ph)
    ensures AllNodes(w, init, s', Combined(w, ph, p, g))
  {
    CombineOwnNode(w, init, s, s', ph, g, p, y);
    forall q | Active(w, q) && q.h > 0 && q != p
      ensures NodeOk(w, init, s', Combined(w, ph, p, g), q)
    {
      CombineOtherNode(w, init, s, s', ph, g, p, y, q);
    }
  }

  lemma CombineLeaves(w: Plan, init: map<Pos, Node>, s: State, s': State, ph: Phases, g: nat, p: Pos, y: Pos)
    requires AtCombine(w, init, s, ph, g, p, y) && CombineStep(w, s, s', ph, g, p) && AllLeaves(w, init, s, ph)
    ensures AllLeaves(w, init, s', Combined(w, ph, p, g))
  {
    forall k | 0 <= k < |w.x.segs|
      ensures LeafOk(w, init, s', Combined(w, ph, p, g), k)
    {
      assert LeafOk(w, init, s, ph, k);
    }
  }

  lemma CombineProcs(w: Plan, init: map<Pos, Node>, s: State, s': State, ph: Phases, g: nat, p: Pos, y: Pos)
    requires AtCombine(w, init, s, ph, g, p, y) && CombineStep(w, s, s', ph, g, p) && AllProcs(w, s, ph)
    ensures AllProcs(w, s', Combined(w, ph, p, g))
  {
    forall j | 0 <= j < |w.x.segs| && j != g
      ensures ProcOk(w, s', Combined(w, ph, p, g), j)
    {
      assert ProcOk(w, s, ph, j);
      ProcFrame(w, s, s', ph, Combined(w, ph, p, g), j);
    }
  }

  lemma CombineStage(w: Plan, init: map<Pos, Node>, s: State, s': State, ph: Phases, g: nat, p: Pos, y: Pos)
    requires AtCombine(w, init, s, ph, g, p, y) && CombineStep(w, s, s', ph, g, p)
    requires StageOk(w, s, ph) && RestUntouched(w, init, s) && AllFlags(w, s) && (OnPath(w, p) ==> s.stage.Running?)
    ensures StageOk(w, s', Combined(w, ph, p, g)) && RestUntouched(w, init, s') && AllFlags(w, s')
  {
    forall q | Active(w, q)
      ensures FlagsOk(w, s', q)
    {
      assert FlagsOk(w, s, q);
    }
  }

  lemma CombineKeeps(w: Plan, init: map<Pos, Node>, s: State, ph: Phases, g: nat) returns (ph': Phases)
    requires Inv(w, init, s, ph) && GoroutineEnabled(w.x, s, g)
    requires s.procs[g].Combining? && s.procs[g].pos.h > 0
    ensures Inv(w, init, GoroutineStep(w.x, s, g), ph')
  {
    var p := s.procs[g].pos;
    var y := Child(p, s.procs[g].isLeft);
    var s' := GoroutineStep(w.x, s, g);
    assert ProcOk(w, s, ph, g) && FlagsOk(w, s, p) && PhaseOk(w, s, ph, p);
    EnterNode(w, init, s, ph, g, p, s.procs[g].isLeft);
    UnbalancedFlag(w, init, s, ph, g, p, y);
    EnterCombine(w, init, s, ph, g, p, y);
    RootFlag(w, init, s, ph, g, p, y);
    LastPositive(w);
    if Balanced(w, p) {
      ActiveChild(w, p, !IsLeft(y));
      assert PhaseOk(w, s, ph, Child(p, !IsLeft(y)));
    }
    CombineValue(w, init, s, ph, g, p, y);
    CombineLocal(w, init, s, ph, g, p, y);
    ph' := Combined(w, ph, p, g);
    CombinePhases(w, init, s, s', ph, g, p, y);
    CombineNodes(w, init, s, s', ph, g, p, y);
    CombineLeaves(w, init, s, s', ph, g, p, y);
    CombineProcs(w, init, s, s', ph, g, p, y);
    CombineStage(w, init, s, s', ph, g, p, y);
  }

  /** An inner root means that there is more than one double segment. */
  lemma LastPositive(w: Plan)
    requires w.Valid() && w.root > 0
    ensures w.x.Last() > 0
  {
    AncZero(w.root - 1);
  }
}
