/**
 Termination, the final theorem for one chunk, and reuse of the tree for the next chunk.
 */
module BmtCompletion {
  import opened BmtReference
  import opened BmtMachine
  import opened BmtInvariant
  import opened BmtClimb
  import opened BmtRuns
  import opened BmtTheorem

  // ------------------------------------------------------------- termination

  function Above(depth: nat, h: nat): nat {
    if h <= depth then depth - h else 0
  }

  /** An upper bound on the steps a goroutine still takes. */
  function ProcWork(depth: nat, f: Proc): nat {
    match f
    case Absent => 3 * depth + 6
    case Hashing(_) => 3 * depth + 5
    case Storing(p, _, _, _, _) => 3 * Above(depth, p.h) + 4
    case Toggling(p, _, _, _) => 3 * Above(depth, p.h) + 3
    case Combining(p, _, _, _) => 3 * Above(depth, p.h) + 2
    case Sending(_) => 1
    case Returned => 0
  }

  function ProcsWork(depth: nat, fs: seq<Proc>): nat {
    if |fs| == 0 then 0 else ProcWork(depth, fs[0]) + ProcsWork(depth, fs[1..])
  }

  function StageWork(depth: nat, stage: Stage): nat {
    match stage
    case Writing => depth + 3
    case Marking(p, _, _) => Above(depth, p.h) + 2
    case Marked(_) => 1
    case Running => 0
  }

  /** An upper bound on the steps a run can still take. */
  function Work(x: Chunk, s: State): nat {
    StageWork(x.depth, s.stage) + ProcsWork(x.depth, s.procs)
  }

  lemma {:induction false} ProcsWorkUpdate(depth: nat, fs: seq<Proc>, g: nat, f: Proc)
    requires g < |fs|
    ensures ProcsWork(depth, fs[g := f]) + ProcWork(depth, fs[g]) == ProcsWork(depth, fs) + ProcWork(depth, f)
  {
    if g == 0 {
      assert fs[g := f][1..] == fs[1..];
    } else {
      assert fs[g := f][1..] == fs[1..][g - 1 := f];
      ProcsWorkUpdate(depth, fs[1..], g - 1, f);
    }
  }

  /** A goroutine's step uses up some of its work. */
  lemma GoroutineWorks(w: Plan, init: map<Pos, Node>, s: State, ph: Phases, ph': Phases, g: nat)
    requires GoroutineEnabled(w.x, s, g)
    requires w.Valid() && ProcOk(w, s, ph, g) && ProcOk(w, GoroutineStep(w.x, s, g), ph', g)
    requires s.procs[g].Hashing? ==> LeafOk(w, init, s, ph, g)
    ensures ProcWork(w.x.depth, GoroutineStep(w.x, s, g).procs[g]) < ProcWork(w.x.depth, s.procs[g])
  {
  }

  lemma CallerWorks(w: Plan, s: State, ph: Phases)
    requires w.Valid() && CallerEnabled(w.x, s) && StageOk(w, s, ph) && StageOk(w, CallerStep(w.x, s), ph)
    requires s.launched < |s.procs| ==> s.procs[s.launched].Absent?
    ensures Work(w.x, CallerStep(w.x, s)) < Work(w.x, s)
  {
    var s' := CallerStep(w.x, s);
    if !s.stage.Marking? && s'.procs != s.procs {
      ProcsWorkUpdate(w.x.depth, s.procs, s.launched, s'.procs[s.launched]);
    }
  }

  lemma GoroutineStepWorks(w: Plan, init: map<Pos, Node>, s: State, ph: Phases, ph': Phases, g: nat)
    requires GoroutineEnabled(w.x, s, g) && w.Valid()
    requires ProcOk(w, s, ph, g) && LeafOk(w, init, s, ph, g) && ProcOk(w, GoroutineStep(w.x, s, g), ph', g)
    ensures Work(w.x, GoroutineStep(w.x, s, g)) < Work(w.x, s)
  {
    var s' := GoroutineStep(w.x, s, g);
    GoroutineWorks(w, init, s, ph, ph', g);
    ProcsWorkUpdate(w.x.depth, s.procs, g, s'.procs[g]);
  }

  /** Every step of a run uses up some of its work. */
  lemma StepWorks(w: Plan, init: map<Pos, Node>, s: State, ph: Phases, a: Action)
    requires Inv(w, init, s, ph) && Enabled(w.x, s, a)
    ensures Work(w.x, Step(w.x, s, a)) < Work(w.x, s)
  {
    match a
    case Goroutine(g) =>
      var ph' := StepKeeps(w, init, s, ph, a);
      assert ProcOk(w, s, ph, g) && LeafOk(w, init, s, ph, g) && ProcOk(w, GoroutineStep(w.x, s, g), ph', g);
      GoroutineStepWorks(w, init, s, ph, ph', g);
    case Receive(g) =>
      ProcsWorkUpdate(w.x.depth, s.procs, g, Returned);
    case Caller =>
      CallerKeeps(w, init, s, ph);
      assert s.launched < |s.procs| ==> LeafOk(w, init, s, ph, s.launched);
      CallerWorks(w, s, ph);
  }

  /** No run is longer than the work of its first state. */
  lemma {:induction false} RunBounded(w: Plan, init: map<Pos, Node>, s: State, ph: Phases, acts: seq<Action>)
    requires Inv(w, init, s, ph) && IsRun(w.x, s, acts)
    ensures |acts| + Work(w.x, Exec(w.x, s, acts)) <= Work(w.x, s)
    decreases |acts|
  {
    if |acts| > 0 {
      StepWorks(w, init, s, ph, acts[0]);
      var ph1 := StepKeeps(w, init, s, ph, acts[0]);
      RunBounded(w, init, Step(w.x, s, acts[0]), ph1, acts[1..]);
    }
  }

  // -------------------------------------------------------- the end of a run

  /** Once the result is out, every node below the root has been used. */
  lemma {:induction false} Settled(w: Plan, init: map<Pos, Node>, s: State, ph: Phases, p: Pos)
    requires Inv(w, init, s, ph) && s.results != [] && Active(w, p)
    ensures ph(p).Done?
    decreases w.root - p.h
  {
    if p.h < w.root {
      ActiveParent(w, p);
      Settled(w, init, s, ph, Parent(p));
      assert NodeOk(w, init, s, ph, Parent(p));
    } else {
      assert PhaseOk(w, s, ph, p);
    }
  }

  /** Once the result is out, every goroutine has returned. */
  lemma AllReturned(w: Plan, init: map<Pos, Node>, s: State, ph: Phases, g: nat)
    requires Inv(w, init, s, ph) && s.results != [] && g < |s.procs|
    ensures s.procs[g].Returned? && s.stage.Running?
  {
    var r := Pos(w.root, 0);
    assert Active(w, r);
    Settled(w, init, s, ph, r);
    assert ProcOk(w, s, ph, g);
    var f := s.procs[g];
    if f.Hashing? {
      Settled(w, init, s, ph, Pos(0, g));
    } else if f.Storing? || f.Toggling? || f.Combining? {
      var c := if f.pos.h == 0 then Pos(0, g) else Child(f.pos, f.isLeft);
      Settled(w, init, s, ph, c);
    }
  }

  // ------------------------------------------------------- releasing the tree

  /** `releaseTree`: the walk from the last leaf to the top that clears the flags. */
  function Release(depth: nat, nodes: map<Pos, Node>, p: Pos): (r: map<Pos, Node>)
    requires p.h <= depth
    ensures r.Keys == nodes.Keys
    decreases depth - p.h
  {
    var here := if p in nodes
                then nodes[p := nodes[p].(unbalanced := false, root := p.h == depth && nodes[p].root)]
                else nodes;
    if p.h == depth then here else Release(depth, here, Pos(p.h + 1, p.k / 2))
  }

  /** The walk clears the flags of exactly the ancestors of where it starts. */
  lemma {:induction false} ReleaseAt(depth: nat, nodes: map<Pos, Node>, p: Pos, q: Pos)
    requires p.h <= depth && q in nodes
    ensures var r := Release(depth, nodes, p);
            r[q] == if p.h <= q.h <= depth && q.k == Anc(p.k, q.h - p.h)
                    then nodes[q].(unbalanced := false, root := q.h == depth && nodes[q].root)
                    else nodes[q]
    decreases depth - p.h
  {
    var here := if p in nodes
                then nodes[p := nodes[p].(unbalanced := false, root := p.h == depth && nodes[p].root)]
                else nodes;
    if p.h < depth {
      ReleaseAt(depth, here, Pos(p.h + 1, p.k / 2), q);
      if q.h > p.h {
        AncShift(p.k, q.h - p.h - 1);
      }
    }
  }

  /** How often a chunk with last leaf `last` toggles the counter of node `p`. */
  ghost function Toggles(last: nat, p: Pos): nat {
    if Meets(last, p) then 2 else 0
  }

  /** The counters of a finished chunk: up by two where goroutines met, otherwise unchanged. */
  lemma CounterAfter(w: Plan, init: map<Pos, Node>, s: State, ph: Phases, p: Pos)
    requires Inv(w, init, s, ph) && s.results != [] && p in init
    ensures p in s.nodes && s.nodes[p].state == BumpBy(init[p].state, Toggles(w.x.Last(), p))
  {
    if Active(w, p) {
      if p.h > 0 {
        Settled(w, init, s, ph, p);
        assert NodeOk(w, init, s, ph, p);
      } else {
        assert LeafOk(w, init, s, ph, p.k);
      }
    } else if Meets(w.x.Last(), p) {
      MeetsActive(w, p);
    }
  }

  /** An even counter. */
  ghost predicate Even(state: int) {
    -TWO31 <= state < TWO31 && state % 2 == 0
  }

  /** Bumped twice, an even counter is even again. */
  lemma BumpTwice(state: int)
    requires Even(state)
    ensures Even(BumpBy(state, 2)) && BumpBy(state, 2) == if state + 2 < TWO31 then state + 2 else -TWO31
  {
    assert BumpBy(state, 1) == Bump(state);
  }

  /** A node of a finished chunk, after the walk of `releaseTree`. */
  lemma ReleasedNode(w: Plan, s: State, p: Pos)
    requires w.Valid() && s.stage.Running? && InTree(w.x.depth, p) && p in s.nodes
    requires if Active(w, p) then FlagsOk(w, s, p)
             else !s.nodes[p].unbalanced && s.nodes[p].root == (p.h == w.x.depth)
    ensures var r := Release(w.x.depth, s.nodes, Pos(0, w.x.Last()));
            !r[p].unbalanced && r[p].root == (p.h == w.x.depth) && r[p].state == s.nodes[p].state
  {
    ReleaseAt(w.x.depth, s.nodes, Pos(0, w.x.Last()), p);
  }

  /** The counters of `r` are those of `init` after one more chunk. */
  ghost predicate Counted(depth: nat, last: nat, init: map<Pos, Node>, r: map<Pos, Node>) {
    forall p :: InTree(depth, p) && p in init && p in r ==> r[p].state == BumpBy(init[p].state, Toggles(last, p))
  }

  /** A finished chunk leaves a released tree as clean as it found it, and counts exactly its toggles. */
  lemma ReleasedClean(w: Plan, init: map<Pos, Node>, s: State, ph: Phases)
    requires Inv(w, init, s, ph) && s.results != [] && Clean(w.x.depth, init)
    ensures var r := Release(w.x.depth, s.nodes, Pos(0, w.x.Last()));
            Clean(w.x.depth, r) && Counted(w.x.depth, w.x.Last(), init, r)
  {
    var depth := w.x.depth;
    var r := Release(depth, s.nodes, Pos(0, w.x.Last()));
    AllReturned(w, init, s, ph, 0);
    forall p | InTree(depth, p)
      ensures p in r && !r[p].unbalanced && r[p].root == (p.h == depth)
      ensures Even(r[p].state) && r[p].state == BumpBy(init[p].state, Toggles(w.x.Last(), p))
    {
      assert Active(w, p) ==> FlagsOk(w, s, p);
      CounterAfter(w, init, s, ph, p);
      BumpTwice(init[p].state);
      ReleasedNode(w, s, p);
    }
  }

  // ------------------------------------------------------------ the theorems

  /** The leaf of the last double segment of `d`. */
  ghost function LastLeaf(d: Bytes, size: nat): nat
    requires size > 0
  {
    |Split(d, size)| - 1
  }

  /** A finished run of a chunk: it starts on `nodes`, delivers a result and releases the tree as `nodes'`. */
  ghost predicate Hashes(H: Bytes -> Bytes, size: nat, count: nat, d: Bytes,
                         nodes: map<Pos, Node>, acts: seq<Action>, r: Bytes, nodes': map<Pos, Node>)
    requires size > 0 && count > 0
  {
    var x := ChunkOf(H, size, count, d);
    && IsRun(x, Initial(x, nodes), acts)
    && var s := Exec(x, Initial(x, nodes), acts);
       |s.results| > 0 && r == s.results[0] && nodes' == Release(x.depth, s.nodes, Pos(0, x.Last()))
  }

  /**
   Under every interleaving: at most one value reaches the result channel and it is
   the reference hash; until then some goroutine or the caller can take a step; and
   no run is longer than a fixed bound, so the result always arrives.
   */
  lemma EveryInterleaving(H: Bytes -> Bytes, size: nat, count: nat, d: Bytes, nodes: map<Pos, Node>, acts: seq<Action>)
    requires size > 0 && count > 0 && |d| <= count * size
    requires Clean(Depth(count), nodes) && Unwrapped(LastLeaf(d, size), nodes)
    requires IsRun(ChunkOf(H, size, count, d), Initial(ChunkOf(H, size, count, d), nodes), acts)
    ensures var x := ChunkOf(H, size, count, d);
            var s := Exec(x, Initial(x, nodes), acts);
            && (s.results == [] || s.results == [Reference(H, size, count, d)])
            && (s.results == [] ==> exists a :: Enabled(x, s, a))
            && (s.results != [] ==> forall f :: f in s.procs ==> f.Returned?)
            && |acts| <= Work(x, Initial(x, nodes))
  {
    var w := PlanOf(H, size, count, d);
    var s0 := Initial(w.x, nodes);
    InitialInv(w, nodes);
    var ph := RunKeeps(w, nodes, s0, AllPending, acts);
    RunBounded(w, nodes, s0, AllPending, acts);
    ResultIsReference(H, size, count, d);
    StateSettles(w, nodes, Exec(w.x, s0, acts), ph);
  }

  /** A state of a run has delivered nothing and can go on, or has delivered the result and is over. */
  lemma StateSettles(w: Plan, init: map<Pos, Node>, s: State, ph: Phases)
    requires Inv(w, init, s, ph)
    ensures s.results == [] || s.results == [Result(w)]
    ensures s.results == [] ==> exists a :: Enabled(w.x, s, a)
    ensures s.results != [] ==> forall f :: f in s.procs ==> f.Returned?
  {
    assert Active(w, Pos(w.root, 0)) && PhaseOk(w, s, ph, Pos(w.root, 0));
    if s.results == [] {
      var a := NeverStuck(w, init, s, ph);
    } else {
      forall f | f in s.procs ensures f.Returned? {
        var g :| 0 <= g < |s.procs| && s.procs[g] == f;
        AllReturned(w, init, s, ph, g);
      }
    }
  }

  /** One finished chunk gives the reference hash, leaves the tree clean and counts its toggles. */
  lemma ChunkReuses(H: Bytes -> Bytes, size: nat, count: nat, d: Bytes,
                    nodes: map<Pos, Node>, acts: seq<Action>, r: Bytes, nodes': map<Pos, Node>)
    requires size > 0 && count > 0 && |d| <= count * size
    requires Clean(Depth(count), nodes) && Unwrapped(LastLeaf(d, size), nodes)
    requires Hashes(H, size, count, d, nodes, acts, r, nodes')
    ensures r == Reference(H, size, count, d)
    ensures Clean(Depth(count), nodes') && Counted(Depth(count), LastLeaf(d, size), nodes, nodes')
  {
    EveryInterleaving(H, size, count, d, nodes, acts);
    var w := PlanOf(H, size, count, d);
    InitialInv(w, nodes);
    var ph := RunKeeps(w, nodes, Initial(w.x, nodes), AllPending, acts);
    ReleasedClean(w, nodes, Exec(w.x, Initial(w.x, nodes), acts), ph);
  }

  /** From every state of a run on a ready tree the result can be reached. */
  lemma {:induction false} Finish(w: Plan, init: map<Pos, Node>, s: State, ph: Phases) returns (acts: seq<Action>)
    requires Inv(w, init, s, ph)
    ensures IsRun(w.x, s, acts) && Exec(w.x, s, acts).results != []
    decreases Work(w.x, s)
  {
    if s.results != [] {
      acts := [];
    } else {
      var a := NeverStuck(w, init, s, ph);
      StepWorks(w, init, s, ph, a);
      var ph' := StepKeeps(w, init, s, ph, a);
      var rest := Finish(w, init, Step(w.x, s, a), ph');
      ExecCons(w.x, s, a, rest);
      acts := [a] + rest;
    }
  }

  /** Every chunk that fits can be hashed on a ready tree. */
  lemma CanHash(H: Bytes -> Bytes, size: nat, count: nat, d: Bytes, nodes: map<Pos, Node>)
    returns (acts: seq<Action>, r: Bytes, nodes': map<Pos, Node>)
    requires size > 0 && count > 0 && |d| <= count * size
    requires Clean(Depth(count), nodes) && Unwrapped(LastLeaf(d, size), nodes)
    ensures Hashes(H, size, count, d, nodes, acts, r, nodes')
  {
    var w := PlanOf(H, size, count, d);
    var s := Initial(w.x, nodes);
    InitialInv(w, nodes);
    acts := Finish(w, nodes, s, AllPending);
    var t := Exec(w.x, s, acts);
    r, nodes' := t.results[0], Release(w.x.depth, t.nodes, Pos(0, w.x.Last()));
  }

  lemma ExecCons(x: Chunk, s: State, a: Action, rest: seq<Action>)
    requires Enabled(x, s, a) && IsRun(x, Step(x, s, a), rest)
    ensures IsRun(x, s, [a] + rest) && Exec(x, s, [a] + rest) == Exec(x, Step(x, s, a), rest)
  {
    assert ([a] + rest)[1..] == rest;
  }

  lemma {:induction false} ExecAppend(x: Chunk, s: State, a: seq<Action>, b: seq<Action>)
    requires IsRun(x, s, a) && IsRun(x, Exec(x, s, a), b)
    ensures IsRun(x, s, a + b) && Exec(x, s, a + b) == Exec(x, Exec(x, s, a), b)
    decreases |a|
  {
    if |a| == 0 {
      assert a + b == b;
    } else {
      ExecAppend(x, Step(x, s, a[0]), a[1..], b);
      assert (a + b)[1..] == a[1..] + b;
    }
  }
}
