/**
 Every run of a chunk: the calling goroutine's steps keep the invariant, every run
 delivers at most the reference value, never gets stuck, and leaves the tree reusable.
 */
module BmtRuns {
  import opened BmtReference
  import opened BmtMachine
  import opened BmtInvariant
  import opened BmtClimb
  import opened BmtLeaves

  // ---------------------------------------------------------------- launching

  /** Only goroutine `g` changes, from absent to launched. */
  ghost predicate Launch(w: Plan, s: State, s': State, g: nat, d: nat)
    requires w.Valid() && g < |w.x.segs|
  {
    && |s.procs| == |s'.procs| == |w.x.segs|
    && s' == s.(procs := s.procs[g := WriteSegment(w.x, g, d)], launched := g + 1, stage := s'.stage)
    && s.launched == g
    && (if g < w.x.Last() then s.stage.Writing? && s'.stage.Writing? && d == w.x.depth
        else s.stage == Marked(d) && s'.stage.Running? && d == w.root - w.Start())
  }

  lemma LaunchPhases(w: Plan, init: map<Pos, Node>, s: State, s': State, ph: Phases, g: nat, d: nat)
    requires w.Valid() && g < |w.x.segs| && Launch(w, s, s', g, d)
    requires AllPhases(w, s, ph) && LeafOk(w, init, s, ph, g)
    ensures AllPhases(w, s', ph)
  {
    forall q | Active(w, q) ensures PhaseOk(w, s', ph, q) {
      assert PhaseOk(w, s, ph, q);
      PhaseFrame(w, s, s', ph, ph, g, q);
    }
  }

  lemma LaunchNodes(w: Plan, init: map<Pos, Node>, s: State, s': State, ph: Phases, g: nat, d: nat)
    requires w.Valid() && g < |w.x.segs| && Launch(w, s, s', g, d)
    requires AllNodes(w, init, s, ph) && AllFlags(w, s)
    ensures AllNodes(w, init, s', ph) && AllFlags(w, s')
  {
    forall q | Active(w, q) ensures FlagsOk(w, s', q) {
      assert FlagsOk(w, s, q);
    }
    forall q | Active(w, q) && q.h > 0 ensures NodeOk(w, init, s', ph, q) {
      assert NodeOk(w, init, s, ph, q);
    }
  }

  lemma LaunchProcs(w: Plan, init: map<Pos, Node>, s: State, s': State, ph: Phases, g: nat, d: nat)
    requires w.Valid() && g < |w.x.segs| && Launch(w, s, s', g, d) && (w.root > 0 <==> w.x.Last() > 0)
    requires AllLeaves(w, init, s, ph) && AllProcs(w, s, ph)
    ensures AllLeaves(w, init, s', ph) && AllProcs(w, s', ph)
  {
    assert LeafOk(w, init, s, ph, g);
    assert LeafOk(w, init, s', ph, g);
    forall k | 0 <= k < |w.x.segs| && k != g ensures LeafOk(w, init, s', ph, k) && ProcOk(w, s', ph, k) {
      assert LeafOk(w, init, s, ph, k) && ProcOk(w, s, ph, k);
    }
  }

  lemma LaunchKeeps(w: Plan, init: map<Pos, Node>, s: State, s': State, ph: Phases, g: nat, d: nat)
    requires Core(w, init, s, ph) && g < |w.x.segs| && Launch(w, s, s', g, d)
    ensures Core(w, init, s', ph)
  {
    assert LeafOk(w, init, s, ph, g);
    RootPositive(w);
    LaunchPhases(w, init, s, s', ph, g, d);
    LaunchNodes(w, init, s, s', ph, g, d);
    LaunchProcs(w, init, s, s', ph, g, d);
  }

  // ------------------------------------------------------------------ marking

  /** Below the root the path of the last segment is not on the left edge of the tree. */
  lemma {:induction false} EdgePositive(w: Plan, h: nat)
    requires w.Valid() && h < w.root
    ensures w.Edge(h) > 0
    decreases w.root - h
  {
    if h + 1 < w.root {
      EdgePositive(w, h + 1);
    }
  }

  lemma BeginKeeps(w: Plan, init: map<Pos, Node>, s: State, ph: Phases)
    requires Core(w, init, s, ph) && s.stage.Writing? && s.launched == w.x.Last()
    ensures Core(w, init, CallerStep(w.x, s), ph)
  {
    var s' := CallerStep(w.x, s);
    RootPositive(w);
    assert w.Edge(1) == w.x.Last() / 2;
    forall q | Active(w, q) ensures FlagsOk(w, s', q) && PhaseOk(w, s', ph, q) {
      assert FlagsOk(w, s, q) && PhaseOk(w, s, ph, q);
    }
    forall k | 0 <= k < |w.x.segs| ensures LeafOk(w, init, s', ph, k) && ProcOk(w, s', ph, k) {
      assert LeafOk(w, init, s, ph, k) && ProcOk(w, s, ph, k);
    }
    forall q | Active(w, q) && q.h > 0 ensures NodeOk(w, init, s', ph, q) {
      assert NodeOk(w, init, s, ph, q);
    }
  }

  lemma MarkFlags(w: Plan, init: map<Pos, Node>, s: State, ph: Phases)
    requires w.Valid() && CallerEnabled(w.x, s) && s.stage.Marking? && StageOk(w, s, ph) && AllFlags(w, s)
    ensures AllFlags(w, CallerStep(w.x, s)) && StageOk(w, CallerStep(w.x, s), ph)
  {
    var s', p := CallerStep(w.x, s), s.stage.pos;
    assert FlagsOk(w, s, p);
    if p.h < w.root {
      EdgePositive(w, p.h);
      assert w.Edge(p.h + 1) == p.k / 2;
    }
    forall q | Active(w, q) ensures FlagsOk(w, s', q) {
      assert FlagsOk(w, s, q);
    }
  }

  lemma MarkPhases(w: Plan, init: map<Pos, Node>, s: State, ph: Phases)
    requires w.Valid() && CallerEnabled(w.x, s) && s.stage.Marking? && StageOk(w, s, ph) && AllPhases(w, s, ph)
    ensures AllPhases(w, CallerStep(w.x, s), ph)
  {
    var s', p := CallerStep(w.x, s), s.stage.pos;
    forall q | Active(w, q) ensures PhaseOk(w, s', ph, q) {
      assert PhaseOk(w, s, ph, q);
      if q.h < w.root && Parent(q) == p && !IsLeft(q) {
        assert q.k == w.Edge(q.h);
      }
    }
  }

  lemma MarkRest(w: Plan, init: map<Pos, Node>, s: State, ph: Phases)
    requires w.Valid() && CallerEnabled(w.x, s) && s.stage.Marking? && StageOk(w, s, ph)
    requires AllNodes(w, init, s, ph) && AllLeaves(w, init, s, ph) && AllProcs(w, s, ph)
    ensures AllNodes(w, init, CallerStep(w.x, s), ph)
    ensures AllLeaves(w, init, CallerStep(w.x, s), ph) && AllProcs(w, CallerStep(w.x, s), ph)
  {
    var s' := CallerStep(w.x, s);
    forall q | Active(w, q) && q.h > 0 ensures NodeOk(w, init, s', ph, q) {
      assert NodeOk(w, init, s, ph, q);
    }
    forall k | 0 <= k < |w.x.segs| ensures LeafOk(w, init, s', ph, k) && ProcOk(w, s', ph, k) {
      assert LeafOk(w, init, s, ph, k) && ProcOk(w, s, ph, k);
    }
  }

  lemma MarkKeeps(w: Plan, init: map<Pos, Node>, s: State, ph: Phases)
    requires Core(w, init, s, ph) && CallerEnabled(w.x, s) && s.stage.Marking?
    ensures Core(w, init, CallerStep(w.x, s), ph)
  {
    MarkFlags(w, init, s, ph);
    MarkPhases(w, init, s, ph);
    MarkRest(w, init, s, ph);
  }

  // ---------------------------------------------------------------- receiving

  lemma ReceiveKeeps(w: Plan, init: map<Pos, Node>, s: State, ph: Phases, g: nat) returns (ph': Phases)
    requires Inv(w, init, s, ph) && ReceiveEnabled(s, g)
    ensures Inv(w, init, Step(w.x, s, Receive(g)), ph')
  {
    var s' := Step(w.x, s, Receive(g));
    var r := Pos(w.root, 0);
    ph' := With(ph, r, Done);
    assert Active(w, r) && ProcOk(w, s, ph, g) && PhaseOk(w, s, ph, r);
    ReceivePhases(w, init, s, s', ph, g);
    ReceiveRest(w, init, s, s', ph, g);
  }

  lemma ReceivePhases(w: Plan, init: map<Pos, Node>, s: State, s': State, ph: Phases, g: nat)
    requires w.Valid() && AllPhases(w, s, ph) && ReceiveEnabled(s, g) && s' == Step(w.x, s, Receive(g))
    requires ph(Pos(w.root, 0)) == Carried(g)
    ensures AllPhases(w, s', With(ph, Pos(w.root, 0), Done))
  {
    var r := Pos(w.root, 0);
    assert Active(w, r) && PhaseOk(w, s, ph, r);
    forall q | Active(w, q) ensures PhaseOk(w, s', With(ph, r, Done), q) {
      assert PhaseOk(w, s, ph, q);
      if q != r {
        assert q.h < w.root;
      }
    }
  }

  lemma ReceiveRest(w: Plan, init: map<Pos, Node>, s: State, s': State, ph: Phases, g: nat)
    requires w.Valid() && ReceiveEnabled(s, g) && s' == Step(w.x, s, Receive(g)) && |s.procs| == |w.x.segs|
    requires ph(Pos(w.root, 0)) == Carried(g)
    requires AllNodes(w, init, s, ph) && AllLeaves(w, init, s, ph) && AllProcs(w, s, ph) && AllFlags(w, s)
    ensures var ph' := With(ph, Pos(w.root, 0), Done);
            AllNodes(w, init, s', ph') && AllLeaves(w, init, s', ph') && AllProcs(w, s', ph') && AllFlags(w, s')
  {
    var ph' := With(ph, Pos(w.root, 0), Done);
    forall q | Active(w, q) && q.h > 0 ensures NodeOk(w, init, s', ph', q) {
      assert NodeOk(w, init, s, ph, q);
    }
    forall k | 0 <= k < |w.x.segs| ensures LeafOk(w, init, s', ph', k) {
      assert LeafOk(w, init, s, ph, k);
    }
    forall k | 0 <= k < |w.x.segs| ensures ProcOk(w, s', ph', k) {
      assert ProcOk(w, s, ph, k);
    }
    forall q | Active(w, q) ensures FlagsOk(w, s', q) {
      assert FlagsOk(w, s, q);
    }
  }

  // --------------------------------------------------------------------- runs

  /** The calling goroutine's steps keep the invariant and move no phase. */
  lemma CallerKeeps(w: Plan, init: map<Pos, Node>, s: State, ph: Phases)
    requires Core(w, init, s, ph) && CallerEnabled(w.x, s)
    ensures Core(w, init, CallerStep(w.x, s), ph)
  {
    match s.stage
    case Writing =>
      if s.launched < w.x.Last() {
        LaunchKeeps(w, init, s, CallerStep(w.x, s), ph, s.launched, w.x.depth);
      } else {
        BeginKeeps(w, init, s, ph);
      }
    case Marking(_, _, _) =>
      MarkKeeps(w, init, s, ph);
    case Marked(d) =>
      LaunchKeeps(w, init, s, CallerStep(w.x, s), ph, w.x.Last(), d);
  }

  /** Every enabled step keeps the invariant. */
  lemma StepKeeps(w: Plan, init: map<Pos, Node>, s: State, ph: Phases, a: Action) returns (ph': Phases)
    requires Inv(w, init, s, ph) && Enabled(w.x, s, a)
    ensures Inv(w, init, Step(w.x, s, a), ph')
  {
    match a
    case Goroutine(g) =>
      ph' := GoroutineKeeps(w, init, s, ph, g);
    case Receive(g) =>
      ph' := ReceiveKeeps(w, init, s, ph, g);
    case Caller =>
      ph' := ph;
      CallerKeeps(w, init, s, ph);
  }
}
