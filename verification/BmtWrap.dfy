/**
 What a wrapped counter does to a chunk: a goroutine that toggles it first is not
 told to wait, so some schedule combines a node before its right half is there.
 The schedule is built here, for every clean tree and every chunk.
 */
module BmtWrap {
  import opened BmtReference
  import opened BmtMachine
  import opened BmtInvariant
  import opened BmtClimb
  import opened BmtRuns
  import opened BmtTheorem
  import opened BmtCompletion

  // ---------------------------------------------------------- the caller alone

  /** No goroutine has moved since it was launched. */
  ghost predicate NoneMoved(s: State) {
    forall g :: 0 <= g < |s.procs| ==> s.procs[g].Absent? || s.procs[g].Hashing? || s.procs[g].Storing?
  }

  /** The marked nodes have no right half. */
  ghost predicate Cleared(w: Plan, s: State)
    requires w.Valid()
  {
    forall h :: 0 <= h <= w.root && IsMarked(w, s, h) ==>
      Pos(h, w.Edge(h)) in s.nodes && s.nodes[Pos(h, w.Edge(h))].right == []
  }

  /** The nodes off the path of the last double segment are untouched. */
  ghost predicate OffPathSame(w: Plan, init: map<Pos, Node>, s: State)
    requires w.Valid()
  {
    s.nodes.Keys == init.Keys && forall p :: p in init && !OnPath(w, p) ==> s.nodes[p] == init[p]
  }

  /** Only the caller has moved. */
  ghost predicate Unmoved(w: Plan, init: map<Pos, Node>, s: State)
    requires w.Valid()
  {
    NoneMoved(s) && Cleared(w, s) && OffPathSame(w, init, s)
  }

  /** The caller is ready to wait for the result and nothing else has happened. */
  ghost predicate Started(w: Plan, init: map<Pos, Node>, s: State) {
    Core(w, init, s, AllPending) && s.stage.Running? && Unmoved(w, init, s)
  }

  lemma CallerClears(w: Plan, s: State)
    requires w.Valid() && StageOk(w, s, AllPending) && Cleared(w, s) && CallerEnabled(w.x, s)
    ensures Cleared(w, CallerStep(w.x, s))
  {
    var s' := CallerStep(w.x, s);
    forall h | 0 <= h <= w.root && IsMarked(w, s', h)
      ensures Pos(h, w.Edge(h)) in s'.nodes && s'.nodes[Pos(h, w.Edge(h))].right == []
    {
      if s.stage.Marking? && h == s.stage.pos.h {
        assert s.stage.pos == Pos(h, w.Edge(h));
      } else if s.stage.Marking? && h > s.stage.pos.h {
        EdgePositive(w, s.stage.pos.h);
        assert false;
      } else {
        assert IsMarked(w, s, h);
      }
    }
  }

  lemma CallerUnmoved(w: Plan, init: map<Pos, Node>, s: State)
    requires w.Valid() && StageOk(w, s, AllPending) && Unmoved(w, init, s) && CallerEnabled(w.x, s)
    ensures Unmoved(w, init, CallerStep(w.x, s))
  {
    CallerClears(w, s);
    assert NoneMoved(CallerStep(w.x, s));
    assert OffPathSame(w, init, CallerStep(w.x, s));
  }

  lemma {:induction false} LaunchAll(w: Plan, init: map<Pos, Node>, s: State) returns (acts: seq<Action>)
    requires Core(w, init, s, AllPending) && Unmoved(w, init, s)
    ensures IsRun(w.x, s, acts) && Started(w, init, Exec(w.x, s, acts))
    decreases Work(w.x, s)
  {
    if s.stage.Running? {
      acts := [];
    } else {
      assert s.stage.Marking? ==> FlagsOk(w, s, s.stage.pos);
      CallerKeeps(w, init, s, AllPending);
      CallerUnmoved(w, init, s);
      assert s.launched < |s.procs| ==> LeafOk(w, init, s, AllPending, s.launched);
      CallerWorks(w, s, AllPending);
      var rest := LaunchAll(w, init, CallerStep(w.x, s));
      ExecCons(w.x, s, Caller, rest);
      acts := [Caller] + rest;
    }
  }

  /** The flags and counters the goroutines find. */
  lemma StartedNode(w: Plan, init: map<Pos, Node>, s: State, p: Pos)
    requires w.Valid() && s.stage.Running? && Cleared(w, s) && Active(w, p) && p.h > 0
    requires FlagsOk(w, s, p) && NodeOk(w, init, s, AllPending, p)
    ensures var n := s.nodes[p];
            && n.state == init[p].state
            && n.unbalanced == !Balanced(w, p)
            && n.root == (p.h == w.root)
            && (OnPath(w, p) || n.unbalanced ==> n.right == [])
  {
    if !Balanced(w, p) {
      assert OnPath(w, p);
    } else if OnPath(w, p) {
      assert w.Edge(p.h) == w.Edge(p.h - 1) / 2;
    }
  }

  // --------------------------------------------------------- parts of the tree

  /** Node `p` belongs to the part of the tree below node `(h, k)`. */
  ghost predicate Under(p: Pos, h: nat, k: nat) {
    p.h <= h && Anc(p.k, h - p.h) == k
  }

  /** Nothing but the part below `(h, k)` differs. */
  ghost predicate Only(s: State, s': State, h: nat, k: nat) {
    && s'.stage == s.stage && s'.results == s.results
    && |s'.procs| == |s.procs| && s'.nodes.Keys == s.nodes.Keys
    && (forall g :: 0 <= g < |s.procs| && !Under(Pos(0, g), h, k) ==> s'.procs[g] == s.procs[g])
    && (forall q :: q in s.nodes && !Under(q, h, k) ==> s'.nodes[q] == s.nodes[q])
  }

  lemma UnderChild(p: Pos, h: nat, c: nat, k: nat)
    requires h > 0 && c / 2 == k && Under(p, h - 1, c)
    ensures Under(p, h, k)
  {
  }

  lemma OnlyUp(s: State, s': State, h: nat, c: nat, k: nat)
    requires h > 0 && c / 2 == k && Only(s, s', h - 1, c)
    ensures Only(s, s', h, k)
  {
    forall g | 0 <= g < |s.procs| && !Under(Pos(0, g), h, k) ensures s'.procs[g] == s.procs[g] {
      if Under(Pos(0, g), h - 1, c) {
        UnderChild(Pos(0, g), h, c, k);
      }
    }
    forall q | q in s.nodes && !Under(q, h, k) ensures s'.nodes[q] == s.nodes[q] {
      if Under(q, h - 1, c) {
        UnderChild(q, h, c, k);
      }
    }
  }

  lemma OnlyTrans(s: State, s': State, s'': State, h: nat, k: nat)
    requires Only(s, s', h, k) && Only(s', s'', h, k)
    ensures Only(s, s'', h, k)
  {
  }

  lemma TouchesOnly(s: State, s': State, g: nat, p: Pos)
    requires Touches(s, s', g, p) && Under(Pos(0, g), p.h, p.k)
    ensures Only(s, s', p.h, p.k)
  {
    assert Anc(p.k, 0) == p.k;
  }

  // ---------------------------------------------------- one goroutine, one node

  /** Goroutine `g` has the output `v` of node `(h, k)` and is about to hand it on. */
  ghost predicate Brings(w: Plan, s: State, h: nat, k: nat, g: nat, v: Bytes)
    requires w.Valid()
  {
    && g < |s.procs| == |w.x.segs|
    && Under(Pos(0, g), h, k)
    && var f := s.procs[g];
       if h == w.root then f == Sending(v)
       else f.Storing? && f.pos == Pos(h + 1, k / 2) && f.isLeft == (k % 2 == 0) && f.s == v && ClimbOk(w, f.i, f.d)
  }

  ghost predicate AtToggle(w: Plan, s: State, p: Pos, isLeft: bool, g: nat)
    requires w.Valid()
  {
    && g < |s.procs| == |w.x.segs| && Under(Pos(0, g), p.h, p.k) && p in s.nodes
    && var f := s.procs[g];
       f.Toggling? && f.pos == p && f.isLeft == isLeft && ClimbOk(w, f.i, f.d)
  }

  lemma StoreMove(w: Plan, s: State, h: nat, c: nat, g: nat, v: Bytes)
    requires w.Valid() && h < w.root && Brings(w, s, h, c, g, v) && Pos(h + 1, c / 2) in s.nodes
    ensures GoroutineEnabled(w.x, s, g)
    ensures var p, s' := Pos(h + 1, c / 2), GoroutineStep(w.x, s, g);
            && Touches(s, s', g, p) && AtToggle(w, s', p, c % 2 == 0, g)
            && s'.nodes[p] == if c % 2 == 0 then s.nodes[p].(left := v) else s.nodes[p].(right := v)
  {
    UnderChild(Pos(0, g), h + 1, c, c / 2);
  }

  /** A goroutine that is told to wait is done. */
  lemma WaitMove(w: Plan, s: State, p: Pos, isLeft: bool, g: nat)
    requires w.Valid() && AtToggle(w, s, p, isLeft, g) && !s.nodes[p].unbalanced && ToggleWaits(s.nodes[p].state)
    ensures GoroutineEnabled(w.x, s, g)
    ensures var s' := GoroutineStep(w.x, s, g);
            Touches(s, s', g, p) && s'.nodes[p] == s.nodes[p].(state := Bump(s.nodes[p].state))
  {
  }

  /** What the node combines to. */
  ghost function Joined(w: Plan, n: Node): Bytes
  {
    if n.unbalanced then n.left else w.x.H(n.left + n.right)
  }

  /** A goroutine that is not told to wait combines the node and goes on. */
  lemma PassMoves(w: Plan, s: State, p: Pos, isLeft: bool, g: nat) returns (s': State)
    requires w.Valid() && w.x.Last() > 0 && 0 < p.h <= w.root && AtToggle(w, s, p, isLeft, g)
    requires s.nodes[p].root == (p.h == w.root)
    requires if s.nodes[p].unbalanced then isLeft && s.nodes[p].right == [] else !ToggleWaits(s.nodes[p].state)
    ensures var acts := [Goroutine(g)] + ([Goroutine(g)] + []);
            IsRun(w.x, s, acts) && s' == Exec(w.x, s, acts)
    ensures Touches(s, s', g, p) && Brings(w, s', p.h, p.k, g, Joined(w, s.nodes[p]))
  {
    var s1 := GoroutineStep(w.x, s, g);
    assert s.nodes[p].unbalanced ==> s.nodes[p].left + s.nodes[p].right == s.nodes[p].left;
    s' := GoroutineStep(w.x, s1, g);
    ExecCons(w.x, s1, Goroutine(g), []);
    ExecCons(w.x, s, Goroutine(g), [Goroutine(g)] + []);
  }

  // ------------------------------------------------------------ one whole node

  /** Of an even counter, the first toggle waits exactly when it is not negative, and the second never does. */
  lemma ToggleExact(state: int)
    requires Even(state)
    ensures ToggleWaits(state) <==> state >= 0
    ensures state >= 0 ==> !ToggleWaits(Bump(state))
  {
  }

  /** A node's flags as the goroutines need them. */
  ghost predicate Marks(w: Plan, n: Node, p: Pos)
    requires w.Valid() && p.h > 0
  {
    && n.unbalanced == !Balanced(w, p)
    && n.root == (p.h == w.root)
    && (n.unbalanced ==> n.right == [])
    && Even(n.state)
  }

  /** A left half that need not or does not wait goes through the node alone. */
  lemma Overtake(w: Plan, s: State, p: Pos, h: nat, c: nat, g: nat, v: Bytes) returns (acts: seq<Action>)
    requires h + 1 == p.h && c == 2 * p.k
    requires w.Valid() && w.x.Last() > 0 && 0 < p.h <= w.root && p in s.nodes && Marks(w, s.nodes[p], p)
    requires Brings(w, s, h, c, g, v)
    requires s.nodes[p].unbalanced || s.nodes[p].state < 0
    ensures IsRun(w.x, s, acts)
    ensures var s' := Exec(w.x, s, acts);
            && Only(s, s', p.h, p.k)
            && Brings(w, s', p.h, p.k, g, Joined(w, s.nodes[p].(left := v)))
  {
    StoreMove(w, s, h, c, g, v);
    var s1 := GoroutineStep(w.x, s, g);
    TouchesOnly(s, s1, g, p);
    ToggleExact(s.nodes[p].state);
    var s2 := PassMoves(w, s1, p, true, g);
    TouchesOnly(s1, s2, g, p);
    OnlyTrans(s, s1, s2, p.h, p.k);
    acts := [Goroutine(g)] + ([Goroutine(g)] + ([Goroutine(g)] + []));
    ExecCons(w.x, s, Goroutine(g), [Goroutine(g)] + ([Goroutine(g)] + []));
  }

  /** Both halves are stored before either goroutine toggles: the node gets its value, wrapped or not. */
  lemma Meet(w: Plan, s: State, p: Pos, h: nat, c: nat, e: nat, a: nat, b: nat, u: Bytes, v: Bytes)
    returns (acts: seq<Action>)
    requires h + 1 == p.h && c == 2 * p.k && e == c + 1
    requires w.Valid() && w.x.Last() > 0 && 0 < p.h <= w.root && p in s.nodes && Marks(w, s.nodes[p], p)
    requires Brings(w, s, h, c, a, u) && Brings(w, s, h, e, b, v) && Balanced(w, p)
    ensures IsRun(w.x, s, acts)
    ensures var s' := Exec(w.x, s, acts);
            Only(s, s', p.h, p.k) && Brings(w, s', p.h, p.k, b, w.x.H(u + v))
  {
    StoreMove(w, s, h, c, a, u);
    var s1 := GoroutineStep(w.x, s, a);
    TouchesOnly(s, s1, a, p);
    StoreMove(w, s1, h, e, b, v);
    var s2 := GoroutineStep(w.x, s1, b);
    TouchesOnly(s1, s2, b, p);
    OnlyTrans(s, s1, s2, p.h, p.k);
    var rest := MeetToggle(w, s2, p, a, b);
    OnlyTrans(s, s2, Exec(w.x, s2, rest), p.h, p.k);
    ExecCons(w.x, s1, Goroutine(b), rest);
    ExecCons(w.x, s, Goroutine(a), [Goroutine(b)] + rest);
    acts := [Goroutine(a)] + ([Goroutine(b)] + rest);
  }

  lemma MeetToggle(w: Plan, s: State, p: Pos, a: nat, b: nat) returns (acts: seq<Action>)
    requires w.Valid() && w.x.Last() > 0 && 0 < p.h <= w.root && a != b
    requires AtToggle(w, s, p, true, a) && AtToggle(w, s, p, false, b)
    requires Marks(w, s.nodes[p], p) && Balanced(w, p)
    ensures IsRun(w.x, s, acts)
    ensures var s' := Exec(w.x, s, acts);
            Only(s, s', p.h, p.k) && Brings(w, s', p.h, p.k, b, w.x.H(s.nodes[p].left + s.nodes[p].right))
  {
    ToggleExact(s.nodes[p].state);
    if s.nodes[p].state < 0 {
      var t := PassMoves(w, s, p, false, b);
      TouchesOnly(s, t, b, p);
      acts := [Goroutine(b)] + ([Goroutine(b)] + []);
    } else {
      WaitMove(w, s, p, true, a);
      var s1 := GoroutineStep(w.x, s, a);
      TouchesOnly(s, s1, a, p);
      var t := PassMoves(w, s1, p, false, b);
      TouchesOnly(s1, t, b, p);
      OnlyTrans(s, s1, t, p.h, p.k);
      ExecCons(w.x, s, Goroutine(a), [Goroutine(b)] + ([Goroutine(b)] + []));
      acts := [Goroutine(a)] + ([Goroutine(b)] + ([Goroutine(b)] + []));
    }
  }

  // ------------------------------------------------------------- the whole tree

  /** The value of a node when node `gap` is combined with `stale` in place of its right half. */
  ghost function Skipping(w: Plan, gap: Pos, stale: Bytes, h: nat, k: nat): Bytes
    requires w.Valid() && k <= w.Edge(h)
  {
    if h == 0 then Value(w, 0, k)
    else if !Balanced(w, Pos(h, k)) then Skipping(w, gap, stale, h - 1, 2 * k)
    else if Pos(h, k) == gap then w.x.H(Skipping(w, gap, stale, h - 1, 2 * k) + stale)
    else w.x.H(Skipping(w, gap, stale, h - 1, 2 * k) + Skipping(w, gap, stale, h - 1, 2 * k + 1))
  }

  /** A leaf and its goroutine before the goroutine's first step. */
  ghost predicate LeafReady(w: Plan, s: State, k: nat)
    requires w.Valid() && k <= w.x.Last()
  {
    && |s.procs| == |w.x.segs| && Pos(0, k) in s.nodes && !s.nodes[Pos(0, k)].root
    && var f := s.procs[k];
       if |w.x.segs[k]| > w.x.size then
         f.Hashing? && ClimbOk(w, k, f.d)
       else
         && f.Storing? && f.pos == Pos(0, k) && f.isLeft && f.s == w.x.segs[k] && ClimbOk(w, f.i, f.d)
         && s.nodes[Pos(0, k)].unbalanced && s.nodes[Pos(0, k)].right == []
  }

  /** All nodes and goroutines before the first step of a goroutine. */
  ghost predicate Ready(w: Plan, s: State)
    requires w.Valid()
  {
    && (forall p :: Active(w, p) && p.h > 0 ==> p in s.nodes && Marks(w, s.nodes[p], p))
    && (forall k :: 0 <= k <= w.x.Last() ==> LeafReady(w, s, k))
  }

  lemma StartedLeaf(w: Plan, init: map<Pos, Node>, s: State, k: nat)
    requires w.Valid() && w.root > 0 && s.stage.Running? && s.launched == |s.procs| == |w.x.segs| && NoneMoved(s) && Cleared(w, s)
    requires k <= w.x.Last() && LeafOk(w, init, s, AllPending, k) && FlagsOk(w, s, Pos(0, k))
    ensures LeafReady(w, s, k)
  {
    assert OnPath(w, Pos(0, k)) ==> k == w.x.Last();
    assert |w.x.segs[k]| <= w.x.size ==> k == w.x.Last() && IsMarked(w, s, 0);
  }

  lemma StartedReady(w: Plan, init: map<Pos, Node>, s: State)
    requires Started(w, init, s) && w.root > 0 && Clean(w.x.depth, init)
    ensures Ready(w, s)
  {
    forall p | Active(w, p) && p.h > 0 ensures p in s.nodes && Marks(w, s.nodes[p], p) {
      assert FlagsOk(w, s, p) && NodeOk(w, init, s, AllPending, p);
      StartedNode(w, init, s, p);
      ActiveInTree(w, p);
    }
    forall k | 0 <= k <= w.x.Last() ensures LeafReady(w, s, k) {
      assert Active(w, Pos(0, k));
      assert LeafOk(w, init, s, AllPending, k);
      assert FlagsOk(w, s, Pos(0, k));
      StartedLeaf(w, init, s, k);
    }
  }

  /** A leaf's goroutine brings the leaf's value. */
  lemma LeafClimb(w: Plan, s: State, k: nat) returns (acts: seq<Action>)
    requires w.Valid() && w.root > 0 && k <= w.x.Last() && LeafReady(w, s, k)
    ensures IsRun(w.x, s, acts)
    ensures var s' := Exec(w.x, s, acts); Only(s, s', 0, k) && Brings(w, s', 0, k, k, Value(w, 0, k))
  {
    LastPositive(w);
    var p := Pos(0, k);
    assert Anc(k, 0) == k && Under(p, 0, k);
    var g := Goroutine(k);
    var s1 := GoroutineStep(w.x, s, k);
    if s.procs[k].Hashing? {
      ExecCons(w.x, s, g, []);
      acts := [g] + [];
    } else {
      var s2 := GoroutineStep(w.x, s1, k);
      assert s2.nodes[p].left + s2.nodes[p].right == w.x.segs[k];
      var s3 := GoroutineStep(w.x, s2, k);
      ExecCons(w.x, s2, g, []);
      ExecCons(w.x, s1, g, [g] + []);
      ExecCons(w.x, s, g, [g] + ([g] + []));
      acts := [g] + ([g] + ([g] + []));
    }
  }

  /** A run from `s` to `s'` moves only what is below `(h, k)` and makes `g` bring `v` from there. */
  ghost predicate Leads(w: Plan, s: State, s': State, h: nat, k: nat, g: nat, v: Bytes)
    requires w.Valid()
  {
    Reaches(w.x, s, s') && Only(s, s', h, k) && Brings(w, s', h, k, g, v)
  }

  /** Some run leads from `s` to `s'`. */
  ghost predicate Reaches(x: Chunk, s: State, s': State) {
    exists acts :: IsRun(x, s, acts) && Exec(x, s, acts) == s'
  }

  lemma ReachesBy(x: Chunk, s: State, acts: seq<Action>)
    requires IsRun(x, s, acts)
    ensures Reaches(x, s, Exec(x, s, acts))
  {
  }

  lemma ReachesTrans(x: Chunk, s: State, s1: State, s2: State)
    requires Reaches(x, s, s1) && Reaches(x, s1, s2)
    ensures Reaches(x, s, s2)
  {
    var a :| IsRun(x, s, a) && Exec(x, s, a) == s1;
    var b :| IsRun(x, s1, b) && Exec(x, s1, b) == s2;
    ExecAppend(x, s, a, b);
  }

  /** A run below the left half and then the node alone. */
  lemma AfterLeft(w: Plan, s: State, s1: State, p: Pos, h: nat, c: nat, g: nat, v: Bytes) returns (s': State)
    requires h + 1 == p.h && c == 2 * p.k
    requires w.Valid() && w.x.Last() > 0 && 0 < p.h <= w.root && p in s.nodes && Marks(w, s.nodes[p], p)
    requires s.nodes[p].unbalanced || s.nodes[p].state < 0
    requires Leads(w, s, s1, h, c, g, v)
    ensures Leads(w, s, s', p.h, p.k, g, Joined(w, s.nodes[p].(left := v)))
  {
    OnlyUp(s, s1, p.h, c, p.k);
    assert !Under(p, h, c);
    var rest := Overtake(w, s1, p, h, c, g, v);
    s' := Exec(w.x, s1, rest);
    ReachesBy(w.x, s1, rest);
    ReachesTrans(w.x, s, s1, s');
    OnlyTrans(s, s1, s', p.h, p.k);
  }

  /** A run below the right half leaves the node and the goroutine from the left alone. */
  lemma BothThere(w: Plan, s: State, s': State, p: Pos, h: nat, c: nat, e: nat, a: nat, u: Bytes)
    requires w.Valid() && h < p.h && p in s.nodes && c != e && Only(s, s', h, e) && Brings(w, s, h, c, a, u)
    ensures Brings(w, s', h, c, a, u) && s'.nodes[p] == s.nodes[p]
  {
    assert !Under(p, h, e) && !Under(Pos(0, a), h, e);
  }

  lemma BothOnly(s: State, s1: State, s2: State, p: Pos, h: nat, c: nat, e: nat)
    requires h + 1 == p.h && c / 2 == e / 2 == p.k && p in s.nodes && Only(s, s1, h, c) && Only(s1, s2, h, e)
    ensures Only(s, s2, p.h, p.k) && s1.nodes[p] == s.nodes[p]
  {
    OnlyUp(s, s1, p.h, c, p.k);
    OnlyUp(s1, s2, p.h, e, p.k);
    OnlyTrans(s, s1, s2, p.h, p.k);
    assert !Under(p, h, c);
  }

  /** Runs below both halves and then the node. */
  lemma AfterBoth(w: Plan, s: State, s1: State, s2: State, p: Pos, h: nat, c: nat, e: nat,
                  a: nat, b: nat, u: Bytes, v: Bytes) returns (s': State)
    requires h + 1 == p.h && c == 2 * p.k && e == c + 1
    requires w.Valid() && w.x.Last() > 0 && 0 < p.h <= w.root && p in s.nodes && Marks(w, s.nodes[p], p) && Balanced(w, p)
    requires Leads(w, s, s1, h, c, a, u) && Leads(w, s1, s2, h, e, b, v)
    ensures Leads(w, s, s', p.h, p.k, b, w.x.H(u + v))
  {
    BothOnly(s, s1, s2, p, h, c, e);
    BothThere(w, s1, s2, p, h, c, e, a, u);
    var rest := Meet(w, s2, p, h, c, e, a, b, u, v);
    s' := Exec(w.x, s2, rest);
    ReachesBy(w.x, s2, rest);
    ReachesTrans(w.x, s, s1, s2);
    ReachesTrans(w.x, s, s2, s');
    OnlyTrans(s, s2, s', p.h, p.k);
  }

  /** The values at a node that goes on without its right half, or has none, and at one with both halves. */
  lemma SkippingNode(w: Plan, n: Node, gap: Pos, stale: Bytes, h: nat, k: nat)
    requires w.Valid() && h > 0 && k <= w.Edge(h) && Marks(w, n, Pos(h, k)) && (Pos(h, k) == gap ==> stale == n.right)
    ensures 2 * k <= w.Edge(h - 1)
    ensures !Balanced(w, Pos(h, k)) || Pos(h, k) == gap ==>
              Skipping(w, gap, stale, h, k) == Joined(w, n.(left := Skipping(w, gap, stale, h - 1, 2 * k)))
    ensures Balanced(w, Pos(h, k)) && Pos(h, k) != gap ==>
              Skipping(w, gap, stale, h, k) ==
              w.x.H(Skipping(w, gap, stale, h - 1, 2 * k) + Skipping(w, gap, stale, h - 1, 2 * k + 1))
  {
  }

  ghost predicate FitNode(w: Plan, s: State, gap: Pos, stale: Bytes, p: Pos)
    requires w.Valid() && p.h > 0
  {
    p in s.nodes && Marks(w, s.nodes[p], p) && (p == gap ==> s.nodes[p].right == stale && s.nodes[p].state < 0)
  }

  /** The part below `(h, k)` is as the caller left it, and `gap`, if it is there, has wrapped. */
  ghost predicate Fit(w: Plan, s: State, gap: Pos, stale: Bytes, h: nat, k: nat)
    requires w.Valid() && k <= w.Edge(h)
  {
    if h == 0 then LeafReady(w, s, k)
    else
      && FitNode(w, s, gap, stale, Pos(h, k))
      && Fit(w, s, gap, stale, h - 1, 2 * k)
      && (Balanced(w, Pos(h, k)) ==> Fit(w, s, gap, stale, h - 1, 2 * k + 1))
  }

  lemma {:induction false} ReadyFit(w: Plan, s: State, gap: Pos, h: nat, k: nat)
    requires w.Valid() && Ready(w, s) && h <= w.root && k <= w.Edge(h) && gap in s.nodes && s.nodes[gap].state < 0
    ensures Fit(w, s, gap, s.nodes[gap].right, h, k)
    decreases h
  {
    if h == 0 {
      assert LeafReady(w, s, k);
    } else {
      assert Active(w, Pos(h, k));
      ReadyFit(w, s, gap, h - 1, 2 * k);
      if Balanced(w, Pos(h, k)) {
        ReadyFit(w, s, gap, h - 1, 2 * k + 1);
      }
    }
  }

  /** Node `(h, k)` is not below another node `(t, c)` of its level or of a higher one, and so are its halves. */
  lemma OutsideChild(h: nat, c: nat, k: nat, t: nat, e: nat)
    requires 0 < h <= t && c / 2 == k && !Under(Pos(h, k), t, e)
    ensures !Under(Pos(h - 1, c), t, e)
  {
    AncShift(c, t - h);
  }

  /** What moves below `(t, e)` leaves a part outside of it alone. */
  lemma {:induction false} FitKept(w: Plan, s: State, s': State, gap: Pos, stale: Bytes, h: nat, k: nat, t: nat, e: nat)
    requires w.Valid() && k <= w.Edge(h) && h <= t && Fit(w, s, gap, stale, h, k)
    requires Only(s, s', t, e) && !Under(Pos(h, k), t, e)
    ensures Fit(w, s', gap, stale, h, k)
    decreases h
  {
    if h > 0 {
      OutsideChild(h, 2 * k, k, t, e);
      FitKept(w, s, s', gap, stale, h - 1, 2 * k, t, e);
      if Balanced(w, Pos(h, k)) {
        OutsideChild(h, 2 * k + 1, k, t, e);
        FitKept(w, s, s', gap, stale, h - 1, 2 * k + 1, t, e);
      }
    }
  }

  lemma FitRight(w: Plan, s: State, s': State, gap: Pos, stale: Bytes, h: nat, c: nat, e: nat)
    requires w.Valid() && c != e && e <= w.Edge(h) && Fit(w, s, gap, stale, h, e) && Only(s, s', h, c)
    ensures Fit(w, s', gap, stale, h, e)
  {
    assert !Under(Pos(h, e), h, c);
    FitKept(w, s, s', gap, stale, h, e, h, c);
  }

  /** The schedule: all nodes below `(h, k)` are combined in turn, and `gap` without its right half. */
  lemma {:induction false} Climb(w: Plan, s: State, gap: Pos, stale: Bytes, h: nat, k: nat)
    returns (s': State, g: nat, v: Bytes)
    requires w.Valid() && w.root > 0 && h <= w.root && k <= w.Edge(h) && Fit(w, s, gap, stale, h, k)
    ensures Leads(w, s, s', h, k, g, v) && v == Skipping(w, gap, stale, h, k)
    decreases h
  {
    if h == 0 {
      var acts := LeafClimb(w, s, k);
      ReachesBy(w.x, s, acts);
      s', g, v := Exec(w.x, s, acts), k, Value(w, 0, k);
    } else {
      var p, l, c, e := Pos(h, k), h - 1, 2 * k, 2 * k + 1;
      LastPositive(w);
      assert FitNode(w, s, gap, stale, p) && c <= w.Edge(l) && Fit(w, s, gap, stale, l, c);
      SkippingNode(w, s.nodes[p], gap, stale, h, k);
      var s1, a, u := Climb(w, s, gap, stale, l, c);
      if !Balanced(w, p) || p == gap {
        g, v := a, Joined(w, s.nodes[p].(left := u));
        assert v == Skipping(w, gap, stale, h, k);
        s' := AfterLeft(w, s, s1, p, l, c, a, u);
      } else {
        FitRight(w, s, s1, gap, stale, l, c, e);
        var s2, b, z := Climb(w, s1, gap, stale, l, e);
        g, v := b, w.x.H(u + z);
        assert v == Skipping(w, gap, stale, h, k);
        s' := AfterBoth(w, s, s1, s2, p, l, c, e, a, b, u, z);
      }
    }
  }

  // ------------------------------------------------------------ what comes out

  /** A base hash that keeps its whole input and tags it with `c`. */
  ghost function Tag(c: bv8): Bytes -> Bytes {
    (v: Bytes) => v + [c]
  }

  lemma Cancel(a: Bytes, b: Bytes, z: Bytes)
    requires a + z == b + z
    ensures a == b
  {
    assert a == (a + z)[..|a|] && b == (b + z)[..|b|];
  }

  lemma CancelLeft(z: Bytes, a: Bytes, b: Bytes)
    requires z + a == z + b
    ensures a == b
  {
    assert a == (z + a)[|z|..] && b == (z + b)[|z|..];
  }

  /** Away from `gap` nothing changes. */
  lemma {:induction false} SkippingElsewhere(w: Plan, gap: Pos, stale: Bytes, h: nat, k: nat)
    requires w.Valid() && k <= w.Edge(h) && !Under(gap, h, k)
    ensures Skipping(w, gap, stale, h, k) == Value(w, h, k)
    decreases h
  {
    if h > 0 {
      assert Under(Pos(h, k), h, k);
      SkippingElsewhere(w, gap, stale, h - 1, 2 * k);
      if Balanced(w, Pos(h, k)) {
        SkippingElsewhere(w, gap, stale, h - 1, 2 * k + 1);
      }
    }
  }

  /** With a tagging base hash, another right half at `gap` shows in every value above it. */
  lemma {:induction false} SkippingShows(w: Plan, gap: Pos, stale: Bytes, c: bv8, h: nat, k: nat)
    requires w.Valid() && k <= w.Edge(h) && Under(gap, h, k) && w.x.H == Tag(c)
    requires Meets(w.x.Last(), gap) && stale != Value(w, gap.h - 1, 2 * gap.k + 1)
    ensures Skipping(w, gap, stale, h, k) != Value(w, h, k)
    decreases h
  {
    var p := Pos(h, k);
    if p == gap {
      SkippingElsewhere(w, gap, stale, h - 1, 2 * k);
      TagShows(c, Value(w, h - 1, 2 * k), stale, Value(w, h - 1, 2 * k), Value(w, h - 1, 2 * k + 1));
    } else {
      SkippingAbove(w, gap, stale, c, h, k);
    }
  }

  /** The half of an inner node below which another node lies. */
  lemma Half(w: Plan, p: Pos, h: nat, k: nat) returns (e: nat)
    requires w.Valid() && Under(p, h, k) && Pos(h, k) != p && p.k <= w.Edge(p.h)
    ensures h > 0 && Under(p, h - 1, e) && e <= w.Edge(h - 1) && (e == 2 * k || e == 2 * k + 1)
    ensures !Under(p, h - 1, 4 * k + 1 - e)
  {
    assert Anc(p.k, 0) == p.k;
    e := Anc(p.k, h - 1 - p.h);
    DataAbove(w, p, h - 1);
  }

  lemma {:induction false} SkippingAbove(w: Plan, gap: Pos, stale: Bytes, c: bv8, h: nat, k: nat)
    requires w.Valid() && k <= w.Edge(h) && Under(gap, h, k) && w.x.H == Tag(c) && Pos(h, k) != gap
    requires Meets(w.x.Last(), gap) && stale != Value(w, gap.h - 1, 2 * gap.k + 1)
    ensures Skipping(w, gap, stale, h, k) != Value(w, h, k)
    decreases h, 0
  {
    var e := Half(w, gap, h, k);
    SkippingShows(w, gap, stale, c, h - 1, e);
    if Balanced(w, Pos(h, k)) {
      SkippingElsewhere(w, gap, stale, h - 1, 4 * k + 1 - e);
      TagShows(c, Skipping(w, gap, stale, h - 1, 2 * k), Skipping(w, gap, stale, h - 1, 2 * k + 1),
               Value(w, h - 1, 2 * k), Value(w, h - 1, 2 * k + 1));
    }
  }

  /** Two pairs that differ in one half have different tagged hashes. */
  lemma TagShows(c: bv8, a: Bytes, b: Bytes, u: Bytes, v: Bytes)
    requires (a == u && b != v) || (a != u && b == v)
    ensures Tag(c)(a + b) != Tag(c)(u + v)
  {
    if Tag(c)(a + b) == Tag(c)(u + v) {
      Cancel(a + b, u + v, [c]);
      if a == u {
        CancelLeft(a, b, v);
      } else {
        Cancel(a, u, b);
      }
    }
  }

  /** The ancestors of a node with data have data. */
  lemma {:induction false} DataAbove(w: Plan, p: Pos, h: nat)
    requires w.Valid() && p.k <= w.Edge(p.h) && p.h <= h
    ensures Anc(p.k, h - p.h) <= w.Edge(h)
    decreases h
  {
    if h > p.h {
      DataAbove(w, p, h - 1);
    }
  }

  /** A tagged value that is not on the path of the last double segment ends in the tag. */
  lemma ValueTagged(w: Plan, c: bv8, h: nat, k: nat)
    requires w.Valid() && w.x.H == Tag(c) && k < w.Edge(h)
    ensures var v := Value(w, h, k); |v| > 0 && v[|v| - 1] == c
  {
  }

  lemma {:induction false} ValueNonempty(w: Plan, c: bv8, h: nat, k: nat)
    requires w.Valid() && w.x.H == Tag(c) && k <= w.Edge(h) && w.x.segs[w.x.Last()] != []
    ensures Value(w, h, k) != []
    decreases h
  {
    if h > 0 && !Balanced(w, Pos(h, k)) {
      ValueNonempty(w, c, h - 1, 2 * k);
    }
  }

  /** The tag tells the right half of `p` from what is stored there. */
  ghost predicate Telling(w: Plan, init: map<Pos, Node>, p: Pos, c: bv8)
    requires w.Valid() && p in init
  {
    OnPath(w, p) || var r := init[p].right; r == [] || r[|r| - 1] != c
  }

  lemma StaleShows(w: Plan, init: map<Pos, Node>, s: State, gap: Pos, c: bv8)
    requires w.Valid() && w.x.H == Tag(c) && w.x.segs[w.x.Last()] != []
    requires Cleared(w, s) && OffPathSame(w, init, s) && s.stage.Running?
    requires gap in init && Active(w, gap) && gap.h > 0 && Balanced(w, gap) && Telling(w, init, gap, c)
    ensures s.nodes[gap].right != Value(w, gap.h - 1, 2 * gap.k + 1)
  {
    if OnPath(w, gap) {
      assert IsMarked(w, s, gap.h);
      ValueNonempty(w, c, gap.h - 1, 2 * gap.k + 1);
    } else {
      ValueTagged(w, c, gap.h - 1, 2 * gap.k + 1);
    }
  }

  // ------------------------------------------------------------- the theorems

  /** From the start of a chunk, a run in which `gap` is combined too early. */
  lemma EarlyRun(w: Plan, init: map<Pos, Node>, gap: Pos) returns (s0: State, s: State, g: nat)
    requires w.Valid() && w.root > 0 && Clean(w.x.depth, init)
    requires gap in init && Meets(w.x.Last(), gap) && init[gap].state < 0
    ensures s0.stage.Running? && s0.results == [] && Unmoved(w, init, s0) && gap in s0.nodes
    ensures Reaches(w.x, Initial(w.x, init), s)
    ensures g < |s.procs| && s.procs[g] == Sending(Skipping(w, gap, s0.nodes[gap].right, w.root, 0))
    ensures s.stage.Running? && s.results == []
  {
    var start := Initial(w.x, init);
    InitialCore(w, init);
    var launch := LaunchAll(w, init, start);
    s0 := Exec(w.x, start, launch);
    ReachesBy(w.x, start, launch);
    StartedReady(w, init, s0);
    MeetsActive(w, gap);
    var r := Pos(w.root, 0);
    assert Active(w, r) && PhaseOk(w, s0, AllPending, r) && NodeOk(w, init, s0, AllPending, gap);
    ReadyFit(w, s0, gap, w.root, 0);
    var v;
    s, g, v := Climb(w, s0, gap, s0.nodes[gap].right, w.root, 0);
    ReachesTrans(w.x, start, s0, s);
  }

  /** The caller receives what a goroutine sends. */
  lemma Delivered(x: Chunk, start: State, s: State, g: nat, v: Bytes) returns (acts: seq<Action>)
    requires Reaches(x, start, s) && s.stage.Running? && s.results == [] && g < |s.procs| && s.procs[g] == Sending(v)
    ensures IsRun(x, start, acts) && Exec(x, start, acts).results == [v]
  {
    var run :| IsRun(x, start, run) && Exec(x, start, run) == s;
    ExecCons(x, s, Receive(g), []);
    ExecAppend(x, start, run, [Receive(g)] + []);
    acts := run + ([Receive(g)] + []);
  }

  /** The chunk's hash is not what comes out when `gap` is combined with something else than its right half. */
  lemma ResultDiffers(w: Plan, gap: Pos, stale: Bytes, c: bv8)
    requires w.Valid() && w.root > 0 && w.x.H == Tag(c) && Meets(w.x.Last(), gap)
    requires stale != Value(w, gap.h - 1, 2 * gap.k + 1)
    ensures Skipping(w, gap, stale, w.root, 0) != Result(w)
  {
    MeetsActive(w, gap);
    DataAbove(w, gap, w.root);
    SkippingShows(w, gap, stale, c, w.root, 0);
    LastPositive(w);
  }

  /** With a tag that tells the halves apart, such a run delivers something else than the chunk's hash. */
  lemma EarlyResult(w: Plan, init: map<Pos, Node>, gap: Pos, c: bv8) returns (acts: seq<Action>)
    requires w.Valid() && w.root > 0 && Clean(w.x.depth, init) && w.x.H == Tag(c) && w.x.segs[w.x.Last()] != []
    requires gap in init && Meets(w.x.Last(), gap) && init[gap].state < 0 && Telling(w, init, gap, c)
    ensures IsRun(w.x, Initial(w.x, init), acts)
    ensures var s := Exec(w.x, Initial(w.x, init), acts); |s.results| == 1 && s.results[0] != Result(w)
  {
    var s0, s, g := EarlyRun(w, init, gap);
    MeetsActive(w, gap);
    StaleShows(w, init, s0, gap, c);
    ResultDiffers(w, gap, s0.nodes[gap].right, c);
    acts := Delivered(w.x, Initial(w.x, init), s, g, Skipping(w, gap, s0.nodes[gap].right, w.root, 0));
  }

  lemma LastNonempty(d: Bytes, size: nat)
    requires size > 0 && |Split(d, size)| > 1
    ensures Split(d, size)[LastLeaf(d, size)] != []
  {
    SplitBounds(d, size);
    SplitAt(d, size, LastLeaf(d, size));
  }

  /** If any counter at which the chunk's goroutines meet is negative, some base hash and some run give a wrong result. */
  lemma WrappedTreeFails(size: nat, count: nat, d: Bytes, nodes: map<Pos, Node>)
    returns (H: Bytes -> Bytes, acts: seq<Action>)
    requires size > 0 && count > 0 && |d| <= count * size
    requires Clean(Depth(count), nodes) && !Unwrapped(LastLeaf(d, size), nodes)
    ensures var x := ChunkOf(H, size, count, d);
            && IsRun(x, Initial(x, nodes), acts)
            && var s := Exec(x, Initial(x, nodes), acts);
               |s.results| == 1 && s.results[0] != Reference(H, size, count, d)
  {
    var gap :| gap in nodes && Meets(LastLeaf(d, size), gap) && nodes[gap].state < 0;
    var r := nodes[gap].right;
    var c: bv8 := if r == [] then 0 else r[|r| - 1] + 1;
    H := Tag(c);
    var w := PlanOf(H, size, count, d);
    MeetsActive(w, gap);
    LastPositive(w);
    LastNonempty(d, size);
    acts := EarlyResult(w, nodes, gap, c);
    ResultIsReference(H, size, count, d);
  }

  /** Whatever the base hash and the schedule, the first value received is the reference hash. */
  ghost predicate AlwaysReference(size: nat, count: nat, d: Bytes, nodes: map<Pos, Node>)
    requires size > 0 && count > 0 && |d| <= count * size
  {
    forall H: Bytes -> Bytes, acts: seq<Action> ::
      IsRun(ChunkOf(H, size, count, d), Initial(ChunkOf(H, size, count, d), nodes), acts) ==>
      var s := Exec(ChunkOf(H, size, count, d), Initial(ChunkOf(H, size, count, d), nodes), acts);
      s.results != [] ==> s.results[0] == Reference(H, size, count, d)
  }

  /** A clean tree always gives the reference hash of a chunk exactly when no counter the chunk toggles is negative. */
  lemma AlwaysExact(size: nat, count: nat, d: Bytes, nodes: map<Pos, Node>)
    requires size > 0 && count > 0 && |d| <= count * size && Clean(Depth(count), nodes)
    ensures AlwaysReference(size, count, d, nodes) <==> Unwrapped(LastLeaf(d, size), nodes)
  {
    if Unwrapped(LastLeaf(d, size), nodes) {
      forall H: Bytes -> Bytes, acts: seq<Action>
        | IsRun(ChunkOf(H, size, count, d), Initial(ChunkOf(H, size, count, d), nodes), acts)
        ensures var s := Exec(ChunkOf(H, size, count, d), Initial(ChunkOf(H, size, count, d), nodes), acts);
                s.results != [] ==> s.results[0] == Reference(H, size, count, d)
      {
        EveryInterleaving(H, size, count, d, nodes, acts);
      }
    } else {
      var H, acts := WrappedTreeFails(size, count, d, nodes);
    }
  }
}
