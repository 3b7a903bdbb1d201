/**
 What every interleaving of a chunk's goroutines keeps.

 Each node's output passes through phases on its way into the parent. The invariant
 ties the phases to the goroutines, to the node fields and to the counters.
 */
module BmtInvariant {
  import opened BmtReference
  import opened BmtMachine

  /** Index of the ancestor `h` levels above index `k`. */
  function Anc(k: nat, h: nat): nat {
    if h == 0 then k else Anc(k, h - 1) / 2
  }

  /** A chunk together with the height of the lowest leftmost ancestor of its last leaf. */
  datatype Plan = Plan(x: Chunk, root: nat) {
    ghost predicate Valid() {
      && x.size > 0
      && |x.segs| > 0
      && root <= x.depth
      && Anc(x.Last(), root) == 0
      && (root > 0 ==> Anc(x.Last(), root - 1) > 0)
      && forall i :: 0 <= i < |x.segs| - 1 ==> |x.segs[i]| > x.size
    }

    /** The last node on level `h` that holds data. */
    function Edge(h: nat): nat
      requires |x.segs| > 0
    {
      Anc(x.Last(), h)
    }

    /** The height at which `finalise` starts. */
    function Start(): nat
      requires |x.segs| > 0
    {
      if x.SkipsLeaf() then 1 else 0
    }

    /** Whether the path of the last double segment enters its node at height `h` from the left. */
    predicate FromLeft(h: nat)
      requires |x.segs| > 0
    {
      h == 0 || Edge(h - 1) % 2 == 0
    }
  }

  /** Progress of a node's output: not computed, carried by a goroutine, stored, parked, about to be combined, used. */
  datatype Phase = Pending | Carried(g: nat) | Stored(g: nat) | Parked | Won(g: nat) | Done

  type Phases = Pos -> Phase

  ghost function With(ph: Phases, p: Pos, f: Phase): Phases {
    q => if q == p then f else ph(q)
  }

  /** Nodes at or below the root that hold some of the data. */
  ghost predicate Active(w: Plan, p: Pos)
    requires w.Valid()
  {
    p.h <= w.root && p.k <= w.Edge(p.h)
  }

  ghost predicate OnPath(w: Plan, p: Pos)
    requires w.Valid()
  {
    p.h <= w.root && p.k == w.Edge(p.h)
  }

  ghost function Parent(p: Pos): Pos { Pos(p.h + 1, p.k / 2) }
  ghost function Child(p: Pos, isLeft: bool): Pos
    requires p.h > 0
  {
    Pos(p.h - 1, 2 * p.k + if isLeft then 0 else 1)
  }
  ghost predicate IsLeft(p: Pos) { p.k % 2 == 0 }

  /** Whether both halves of an inner node hold data. */
  ghost predicate Balanced(w: Plan, p: Pos)
    requires w.Valid() && p.h > 0
  {
    2 * p.k + 1 <= w.Edge(p.h - 1)
  }

  /** Both halves of `p` hold data of a chunk with last leaf `last`: two goroutines meet there. */
  ghost predicate Meets(last: nat, p: Pos) {
    p.h > 0 && 2 * p.k + 1 <= Anc(last, p.h - 1)
  }

  /** No counter at which goroutines of the chunk meet has wrapped to a negative number. */
  ghost predicate Unwrapped(last: nat, nodes: map<Pos, Node>) {
    forall p :: p in nodes && Meets(last, p) ==> nodes[p].state >= 0
  }

  /** What node `(h, k)` hands to its parent, by recursion on the tree. */
  ghost function Value(w: Plan, h: nat, k: nat): Bytes
    requires w.Valid() && k <= w.Edge(h)
  {
    if h == 0 then
      if |w.x.segs[k]| > w.x.size then w.x.H(w.x.segs[k]) else w.x.segs[k]
    else if Balanced(w, Pos(h, k)) then
      w.x.H(Value(w, h - 1, 2 * k) + Value(w, h - 1, 2 * k + 1))
    else
      Value(w, h - 1, 2 * k)
  }

  /** The hash of the chunk: the root's value; a chunk of one double segment is hashed once. */
  ghost function Result(w: Plan): Bytes
    requires w.Valid()
  {
    if w.x.Last() == 0 then w.x.H(w.x.segs[0]) else Value(w, w.root, 0)
  }

  ghost function Slot(n: Node, isLeft: bool): Bytes { if isLeft then n.left else n.right }

  /** `n` increments of a counter. */
  ghost function BumpBy(state: int, n: nat): int {
    if n == 0 then state else Bump(BumpBy(state, n - 1))
  }

  ghost predicate IsMarked(w: Plan, s: State, h: nat)
    requires w.Valid()
  {
    match s.stage
    case Writing => false
    case Marking(p, _, _) => w.Start() <= h < p.h
    case _ => w.Start() <= h <= w.root
  }

  /** A node's flags: final on the marked part of the path, untouched elsewhere. */
  ghost predicate FlagsOk(w: Plan, s: State, p: Pos)
    requires w.Valid() && Active(w, p)
  {
    && p in s.nodes
    && var n := s.nodes[p];
       if OnPath(w, p) && IsMarked(w, s, p.h) then
         && n.unbalanced == w.FromLeft(p.h)
         && n.root == (p.h == w.root)
         && (w.FromLeft(p.h) ==> n.right == [])
       else
         !n.unbalanced && n.root == (p.h == w.x.depth)
  }

  /** The special case of `run` that hashes a lone leaf fires only for a chunk of one double segment. */
  ghost predicate ClimbOk(w: Plan, i: nat, d: nat)
    requires w.Valid()
  {
    w.x.Last() > 0 ==> i > 0 || d > 0
  }

  /** A node's output is where its phase says it is. */
  ghost predicate PhaseOk(w: Plan, s: State, ph: Phases, p: Pos)
    requires w.Valid() && Active(w, p)
  {
    if p.h == w.root then
      match ph(p)
      case Pending => s.results == []
      case Carried(g) => s.results == [] && g < |s.procs| && s.procs[g] == Sending(Result(w))
      case Done => s.results == [Result(w)]
      case _ => false
    else
      var q, l := Parent(p), IsLeft(p);
      q in s.nodes &&
      match ph(p)
      case Pending => true
      case Done => true
      case Parked => Slot(s.nodes[q], l) == Value(w, p.h, p.k)
      case Carried(g) =>
        && g < |s.procs| && s.procs[g].Storing? && s.procs[g].pos == q && s.procs[g].isLeft == l
        && s.procs[g].s == Value(w, p.h, p.k) && ClimbOk(w, s.procs[g].i, s.procs[g].d)
      case Stored(g) =>
        && g < |s.procs| && s.procs[g].Toggling? && s.procs[g].pos == q && s.procs[g].isLeft == l
        && Slot(s.nodes[q], l) == Value(w, p.h, p.k) && ClimbOk(w, s.procs[g].i, s.procs[g].d)
      case Won(g) =>
        && g < |s.procs| && s.procs[g].Combining? && s.procs[g].pos == q && s.procs[g].isLeft == l
        && Slot(s.nodes[q], l) == Value(w, p.h, p.k) && ClimbOk(w, s.procs[g].i, s.procs[g].d)
  }

  ghost function Toggled(f: Phase): nat {
    if f.Parked? || f.Won? then 1 else 0
  }

  /**
   The two halves `a` and `b` of an inner node against its own output `f` and its
   counter: the halves are used exactly when the node has an output, one half parks
   and the other one goes on, and the counter counts the halves that toggled.
   */
  ghost predicate HalvesOk(balanced: bool, base: int, state: int, f: Phase, a: Phase, b: Phase) {
    if !f.Pending? then
      a.Done? && (balanced ==> b.Done?) && state == BumpBy(base, if balanced then 2 else 0)
    else if balanced then
      && !a.Done? && !b.Done?
      && state == BumpBy(base, Toggled(a) + Toggled(b))
      && !(a.Parked? && b.Parked?)
      && (a.Won? ==> b.Parked?)
      && (b.Won? ==> a.Parked?)
    else
      !a.Done? && !a.Parked? && state == base
  }

  ghost predicate NodeOk(w: Plan, init: map<Pos, Node>, s: State, ph: Phases, p: Pos)
    requires w.Valid() && Active(w, p) && p.h > 0
  {
    && p in s.nodes && p in init
    && HalvesOk(Balanced(w, p), init[p].state, s.nodes[p].state, ph(p), ph(Child(p, true)), ph(Child(p, false)))
  }

  /** Counters start even and not wrapped. */
  ghost predicate CounterReady(state: int) {
    state % 2 == 0 && 0 <= state < TWO31
  }

  lemma HalvesSwap(base: int, state: int, f: Phase, a: Phase, b: Phase)
    requires HalvesOk(true, base, state, f, a, b)
    ensures HalvesOk(true, base, state, f, b, a)
  {
  }

  /** The first half to toggle an even counter waits, the second does not. */
  lemma ToggleHalf(base: int, state: int, f: Phase, a: Phase, b: Phase, g: nat)
    requires CounterReady(base) && HalvesOk(true, base, state, f, a, b) && a == Stored(g)
    ensures ToggleWaits(state) == !b.Parked?
    ensures HalvesOk(true, base, Bump(state), f, if b.Parked? then Won(g) else Parked, b)
    ensures HalvesOk(true, base, Bump(state), f, b, if b.Parked? then Won(g) else Parked)
  {
    assert BumpBy(base, 1) == Bump(base);
  }

  /** A leaf whose output is pending is still held by its own goroutine. */
  ghost predicate LeafOk(w: Plan, init: map<Pos, Node>, s: State, ph: Phases, k: nat)
    requires w.Valid() && k < |w.x.segs| == |s.procs|
  {
    && Pos(0, k) in s.nodes && Pos(0, k) in init
    && s.nodes[Pos(0, k)].state == init[Pos(0, k)].state
    && if k >= s.launched then
         s.procs[k].Absent? && ph(Pos(0, k)).Pending?
       else if ph(Pos(0, k)).Pending? then
         var f := s.procs[k];
         if |w.x.segs[k]| > w.x.size && w.x.depth > 0 then
           f.Hashing? && ClimbOk(w, k, f.d)
         else
           && k == w.x.Last()
           && s.stage.Running?
           && (f.Storing? || f.Toggling? || f.Combining?)
           && f.pos == Pos(0, k) && f.isLeft && ClimbOk(w, f.i, f.d)
           && (w.x.Last() == 0 ==> f.i == 0 && f.d == 0)
           && (if f.Storing? then f.s == w.x.segs[k] else s.nodes[Pos(0, k)].left == w.x.segs[k])
       else
         true
  }

  /** Every goroutine carries the output of the node its position says. */
  ghost predicate ProcOk(w: Plan, s: State, ph: Phases, g: nat)
    requires w.Valid() && g < |w.x.segs| == |s.procs|
  {
    match s.procs[g]
    case Absent => g >= s.launched
    case Hashing(_) => g < s.launched && ph(Pos(0, g)).Pending?
    case Storing(p, l, _, _, _) =>
      if p.h == 0 then p.k == g < s.launched && ph(p).Pending?
      else Active(w, p) && Active(w, Child(p, l)) && ph(Child(p, l)) == Carried(g)
    case Toggling(p, l, _, _) =>
      if p.h == 0 then p.k == g < s.launched && ph(p).Pending?
      else Active(w, p) && Active(w, Child(p, l)) && ph(Child(p, l)) == Stored(g)
    case Combining(p, l, _, _) =>
      if p.h == 0 then p.k == g < s.launched && ph(p).Pending?
      else Active(w, p) && Active(w, Child(p, l)) && ph(Child(p, l)) == Won(g)
    case Sending(_) => ph(Pos(w.root, 0)) == Carried(g)
    case Returned => true
  }

  /** How far the caller is; until the last goroutine runs, the path of the last segment is untouched. */
  ghost predicate StageOk(w: Plan, s: State, ph: Phases)
    requires w.Valid()
  {
    && (match s.stage
        case Writing => s.launched <= w.x.Last()
        case Marking(p, isLeft, d) =>
          s.launched == w.x.Last() && w.Start() <= p.h && OnPath(w, p) && isLeft == w.FromLeft(p.h) && d == p.h - w.Start()
        case Marked(d) => s.launched == w.x.Last() && d == w.root - w.Start()
        case Running => s.launched == |w.x.segs|)
    && (!s.stage.Running? ==> forall h :: 0 <= h <= w.root ==> ph(Pos(h, w.Edge(h))).Pending?)
  }

  /** Where two goroutines meet, the counter is ready; no other counter matters. */
  ghost predicate CountersReady(w: Plan, init: map<Pos, Node>)
    requires w.Valid()
  {
    forall p :: Active(w, p) && p.h > 0 && Balanced(w, p) ==> p in init && CounterReady(init[p].state)
  }

  /** Nodes that hold no data are left alone. */
  ghost predicate RestUntouched(w: Plan, init: map<Pos, Node>, s: State)
    requires w.Valid()
  {
    s.nodes.Keys == init.Keys && forall p :: p in init && !Active(w, p) ==> s.nodes[p] == init[p]
  }

  /** The invariant, whatever the counters. */
  ghost predicate Core(w: Plan, init: map<Pos, Node>, s: State, ph: Phases) {
    && w.Valid()
    && |s.procs| == |w.x.segs|
    && RestUntouched(w, init, s)
    && StageOk(w, s, ph)
    && AllFlags(w, s)
    && AllPhases(w, s, ph)
    && AllNodes(w, init, s, ph)
    && AllLeaves(w, init, s, ph)
    && AllProcs(w, s, ph)
  }

  ghost predicate Inv(w: Plan, init: map<Pos, Node>, s: State, ph: Phases) {
    Core(w, init, s, ph) && CountersReady(w, init)
  }

  ghost predicate AllFlags(w: Plan, s: State)
    requires w.Valid()
  {
    forall p :: Active(w, p) ==> FlagsOk(w, s, p)
  }

  ghost predicate AllPhases(w: Plan, s: State, ph: Phases)
    requires w.Valid()
  {
    forall p :: Active(w, p) ==> PhaseOk(w, s, ph, p)
  }

  ghost predicate AllNodes(w: Plan, init: map<Pos, Node>, s: State, ph: Phases)
    requires w.Valid()
  {
    forall p :: Active(w, p) && p.h > 0 ==> NodeOk(w, init, s, ph, p)
  }

  ghost predicate AllLeaves(w: Plan, init: map<Pos, Node>, s: State, ph: Phases)
    requires w.Valid() && |s.procs| == |w.x.segs|
  {
    forall k :: 0 <= k < |w.x.segs| ==> LeafOk(w, init, s, ph, k)
  }

  ghost predicate AllProcs(w: Plan, s: State, ph: Phases)
    requires w.Valid() && |s.procs| == |w.x.segs|
  {
    forall g :: 0 <= g < |w.x.segs| ==> ProcOk(w, s, ph, g)
  }

  lemma ActiveChild(w: Plan, p: Pos, l: bool)
    requires w.Valid() && Active(w, p) && p.h > 0 && (l || Balanced(w, p))
    ensures Active(w, Child(p, l)) && Parent(Child(p, l)) == p && IsLeft(Child(p, l)) == l
    ensures Child(p, l).h < w.root
  {
  }

  lemma ActiveParent(w: Plan, p: Pos)
    requires w.Valid() && Active(w, p) && p.h < w.root
    ensures Active(w, Parent(p)) && Child(Parent(p), IsLeft(p)) == p
    ensures !IsLeft(p) ==> Balanced(w, Parent(p))
  {
  }

  ghost predicate Holds(f: Phase, g: nat) {
    f == Carried(g) || f == Stored(g) || f == Won(g)
  }

  lemma PhaseFrame(w: Plan, s: State, s': State, ph: Phases, ph': Phases, g: nat, q: Pos)
    requires w.Valid() && Active(w, q) && ph'(q) == ph(q)
    requires PhaseOk(w, s, ph, q) && !Holds(ph(q), g)
    requires s'.results == s.results && |s'.procs| == |s.procs|
    requires forall j :: 0 <= j < |s.procs| && j != g ==> s'.procs[j] == s.procs[j]
    requires q.h < w.root ==> Parent(q) in s.nodes && Parent(q) in s'.nodes
    requires q.h < w.root ==> Slot(s'.nodes[Parent(q)], IsLeft(q)) == Slot(s.nodes[Parent(q)], IsLeft(q))
    ensures PhaseOk(w, s', ph', q)
  {
  }

  lemma LeafFrame(w: Plan, init: map<Pos, Node>, s: State, s': State, ph: Phases, ph': Phases, k: nat)
    requires w.Valid() && k < |w.x.segs| == |s.procs| == |s'.procs|
    requires LeafOk(w, init, s, ph, k)
    requires s'.stage == s.stage && s'.launched == s.launched && s'.procs[k] == s.procs[k]
    requires Pos(0, k) in s'.nodes && s'.nodes[Pos(0, k)] == s.nodes[Pos(0, k)]
    requires ph'(Pos(0, k)) == ph(Pos(0, k))
    ensures LeafOk(w, init, s', ph', k)
  {
  }

  /** Goroutine `g` is unaffected when only phases held by others change. */
  lemma ProcFrame(w: Plan, s: State, s': State, ph: Phases, ph': Phases, g: nat)
    requires w.Valid() && g < |w.x.segs| == |s.procs| == |s'.procs|
    requires ProcOk(w, s, ph, g) && s'.procs[g] == s.procs[g] && s'.launched == s.launched
    requires forall q :: Holds(ph(q), g) ==> ph'(q) == ph(q)
    requires ph'(Pos(0, g)) == ph(Pos(0, g)) || !ph(Pos(0, g)).Pending?
    ensures ProcOk(w, s', ph', g)
  {
  }

  /** A goroutine holds the output of at most one node. */
  lemma HoldsOne(w: Plan, s: State, ph: Phases, g: nat, q: Pos, y: Pos)
    requires w.Valid() && Active(w, q) && Active(w, y)
    requires PhaseOk(w, s, ph, q) && PhaseOk(w, s, ph, y) && Holds(ph(q), g) && Holds(ph(y), g)
    ensures q == y
  {
  }
}
