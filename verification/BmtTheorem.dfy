/**
 The main results about the concurrent hasher: under every interleaving the only
 value that can reach the result channel is the reference hash, it always gets
 there, and the tree is then ready for the next chunk.
 */
module BmtTheorem {
  import opened BmtReference
  import opened BmtMachine
  import opened BmtInvariant
  import opened BmtClimb
  import opened BmtLeaves
  import opened BmtRuns

  // ------------------------------------------------- data, segments and depth

  /** The double segments of a chunk's data; the last one may be short. */
  function Split(d: Bytes, size: nat): (segs: seq<Bytes>)
    requires size > 0
    ensures |segs| > 0
    decreases |d|
  {
    if |d| <= 2 * size then [d] else [d[..2 * size]] + Split(d[2 * size..], size)
  }

  /** The value of the loop in `depth`. */
  function DepthFrom(l: nat): nat {
    if l > 0 then 1 + DepthFrom(l / 2) else 0
  }

  /** `depth(n)`: levels above the leaves of a tree for `n` segments. */
  function Depth(n: nat): nat
    requires n > 0
  {
    DepthFrom((n - 1) / 2)
  }

  /** `depth` with its loop. */
  method ComputeDepth(n: nat) returns (d: nat)
    requires n > 0
    ensures d == Depth(n)
  {
    d := 0;
    var l := (n - 1) / 2;
    while l > 0
      invariant l >= 0 && d + DepthFrom(l) == Depth(n)
    {
      l := l / 2;
      d := d + 1;
    }
  }

  /** Hashing `d` on a tree for `count` segments. */
  function ChunkOf(H: Bytes -> Bytes, size: nat, count: nat, d: Bytes): Chunk
    requires size > 0 && count > 0
  {
    Chunk(H, size, Depth(count), Split(d, size))
  }

  /** How many double segments the data has. */
  lemma {:induction false} SplitBounds(d: Bytes, size: nat)
    requires size > 0
    ensures 2 * size * (|Split(d, size)| - 1) <= |d| <= 2 * size * |Split(d, size)|
    ensures |Split(d, size)| > 1 ==> 2 * size * (|Split(d, size)| - 1) < |d|
    decreases |d|
  {
    if |d| > 2 * size {
      SplitBounds(d[2 * size..], size);
      StepMul(size, |Split(d[2 * size..], size)|);
    }
  }

  /** Every double segment is a slice of the data, and all but the last are full. */
  lemma SplitAt(d: Bytes, size: nat, i: nat)
    requires size > 0 && i < |Split(d, size)|
    ensures 2 * size * i <= |d|
    ensures i < |Split(d, size)| - 1 ==> 2 * size * i + 2 * size <= |d| && Split(d, size)[i] == d[2 * size * i..2 * size * i + 2 * size]
    ensures i == |Split(d, size)| - 1 ==> Split(d, size)[i] == d[2 * size * i..]
  {
    StepsMul(size, i);
    SplitSlice(d, size, 2 * size, i);
  }

  /** `i` steps of `w` bytes. */
  function Steps(w: nat, i: nat): nat {
    if i == 0 then 0 else w + Steps(w, i - 1)
  }

  lemma {:induction false} StepsMul(size: nat, i: nat)
    ensures Steps(2 * size, i) == 2 * size * i
  {
    if i > 0 {
      StepsMul(size, i - 1);
      StepMul(size, i);
    }
  }

  lemma {:induction false} SplitSlice(d: Bytes, size: nat, w: nat, i: nat)
    requires size > 0 && i < |Split(d, size)| && w == 2 * size
    ensures Steps(w, i) <= |d|
    ensures i < |Split(d, size)| - 1 ==> Steps(w, i) + w <= |d| && Split(d, size)[i] == d[Steps(w, i)..Steps(w, i) + w]
    ensures i == |Split(d, size)| - 1 ==> Split(d, size)[i] == d[Steps(w, i)..]
    decreases i
  {
    if i > 0 {
      SplitTail(d, size, i);
      SplitSlice(d[w..], size, w, i - 1);
      DropSlice(d, w, Steps(w, i - 1), w);
    }
  }

  /** Behind the first double segment come those of the rest. */
  lemma SplitTail(d: Bytes, size: nat, i: nat)
    requires size > 0 && 0 < i < |Split(d, size)|
    ensures |d| > 2 * size && |Split(d, size)| == |Split(d[2 * size..], size)| + 1
    ensures Split(d, size)[i] == Split(d[2 * size..], size)[i - 1]
  {
  }

  lemma DropSlice(d: Bytes, a: nat, lo: nat, w: nat)
    requires a <= |d| && a + lo <= |d|
    ensures d[a..][lo..] == d[a + lo..]
    ensures a + lo + w <= |d| ==> d[a..][lo..lo + w] == d[a + lo..a + lo + w]
  {
  }

  lemma StepMul(size: nat, n: nat)
    ensures 2 * size * n == 2 * size * (n - 1) + 2 * size
    ensures 2 * size * (n + 1) == 2 * size * n + 2 * size
  {
  }

  lemma {:induction false} AncMonotone(a: nat, b: nat, h: nat)
    requires a <= b
    ensures Anc(a, h) <= Anc(b, h)
  {
    if h > 0 {
      AncMonotone(a, b, h - 1);
    }
  }

  lemma {:induction false} AncShift(k: nat, h: nat)
    ensures Anc(k, h + 1) == Anc(k / 2, h)
  {
    if h > 0 {
      AncShift(k, h - 1);
    }
  }

  lemma {:induction false} DepthReachesZero(l: nat)
    ensures Anc(l, DepthFrom(l)) == 0
  {
    if l > 0 {
      DepthReachesZero(l / 2);
      AncShift(l, DepthFrom(l / 2));
    }
  }

  /** Height of the lowest leftmost ancestor of leaf `k`. */
  function RootFrom(k: nat, h: nat, depth: nat): (r: nat)
    requires h <= depth && Anc(k, depth) == 0 && (h > 0 ==> Anc(k, h - 1) > 0)
    ensures h <= r <= depth && Anc(k, r) == 0 && (r > 0 ==> Anc(k, r - 1) > 0)
    decreases depth - h
  {
    if Anc(k, h) == 0 then h else RootFrom(k, h + 1, depth)
  }

  /** The data of a chunk fits its tree. */
  lemma ChunkFits(H: Bytes -> Bytes, size: nat, count: nat, d: Bytes)
    requires size > 0 && count > 0 && |d| <= count * size
    ensures var x := ChunkOf(H, size, count, d);
            && Anc(x.Last(), x.depth) == 0
            && forall i :: 0 <= i < |x.segs| - 1 ==> |x.segs[i]| > x.size
  {
    var segs := Split(d, size);
    var last := |segs| - 1;
    LastInRange(size, count, d);
    DepthReachesZero((count - 1) / 2);
    AncMonotone(last, (count - 1) / 2, Depth(count));
    forall i | 0 <= i < last ensures |segs[i]| > size {
      SplitAt(d, size, i);
    }
  }

  lemma LastInRange(size: nat, count: nat, d: Bytes)
    requires size > 0 && count > 0 && |d| <= count * size
    ensures |Split(d, size)| - 1 <= (count - 1) / 2
  {
    var last := |Split(d, size)| - 1;
    SplitBounds(d, size);
    if last > 0 {
      assert 2 * size * last == (2 * last) * size;
      SmallerFactor(2 * last, count, size);
    }
  }

  lemma SmallerFactor(a: nat, b: nat, c: nat)
    requires a * c < b * c
    ensures a < b
  {
    if a >= b {
      MulMonotone(b, a, c);
    }
  }

  ghost function PlanOf(H: Bytes -> Bytes, size: nat, count: nat, d: Bytes): (w: Plan)
    requires size > 0 && count > 0 && |d| <= count * size
    ensures w.Valid() && w.x == ChunkOf(H, size, count, d)
  {
    ChunkFits(H, size, count, d);
    var x := ChunkOf(H, size, count, d);
    Plan(x, RootFrom(x.Last(), 0, x.depth))
  }

  // --------------------------------------------- the tree computes the reference

  /** First data byte below node `(h, k)`. */
  ghost function Offset(size: nat, h: nat, k: nat): nat {
    if h == 0 then 2 * size * k else Offset(size, h - 1, 2 * k)
  }

  lemma {:induction false} OffsetNext(size: nat, h: nat, k: nat)
    requires size > 0
    ensures Offset(size, h, k + 1) == Offset(size, h, k) + Width(size, h)
  {
    if h == 0 {
      StepMul(size, k);
    } else {
      OffsetNext(size, h - 1, 2 * k);
      OffsetNext(size, h - 1, 2 * k + 1);
    }
  }

  /** A node holds data exactly when it is not past the edge. */
  lemma {:induction false} EdgeIsOffset(d: Bytes, size: nat, h: nat, k: nat)
    requires size > 0 && |d| > 0
    ensures k <= Anc(|Split(d, size)| - 1, h) <==> Offset(size, h, k) < |d|
  {
    if h > 0 {
      EdgeIsOffset(d, size, h - 1, 2 * k);
    } else {
      LeafIsOffset(d, size, k);
    }
  }

  lemma LeafIsOffset(d: Bytes, size: nat, k: nat)
    requires size > 0 && |d| > 0
    ensures k <= |Split(d, size)| - 1 <==> 2 * size * k < |d|
  {
    var n := |Split(d, size)|;
    SplitBounds(d, size);
    BelowEdge(size, n, |d|, k);
  }

  lemma BelowEdge(size: nat, n: nat, len: nat, k: nat)
    requires n > 0 && 2 * size * (n - 1) < len <= 2 * size * n
    ensures k <= n - 1 <==> 2 * size * k < len
  {
    if k <= n - 1 {
      MulMonotone(k, n - 1, 2 * size);
    } else {
      MulMonotone(n, k, 2 * size);
    }
  }

  /** At most `w` bytes from `lo` on. */
  function Piece(d: Bytes, lo: nat, w: nat): (r: Bytes)
    requires lo <= |d|
    ensures |r| <= w
  {
    if lo + w <= |d| then d[lo..lo + w] else d[lo..]
  }

  lemma PieceHalves(d: Bytes, lo: nat, half: nat)
    requires lo < |d| && half > 0
    ensures var all := Piece(d, lo, 2 * half);
            if lo + half < |d| then
              |all| > half && all[..half] == Piece(d, lo, half) && all[half..] == Piece(d, lo + half, half)
            else
              |all| <= half && all == Piece(d, lo, half)
  {
  }

  ghost function Slice(d: Bytes, size: nat, h: nat, k: nat): (r: Bytes)
    requires size > 0 && Offset(size, h, k) <= |d|
    ensures |r| <= Width(size, h)
  {
    Piece(d, Offset(size, h, k), Width(size, h))
  }

  lemma SegmentIsSlice(d: Bytes, size: nat, k: nat)
    requires size > 0 && k < |Split(d, size)|
    ensures Offset(size, 0, k) <= |d| && Split(d, size)[k] == Slice(d, size, 0, k)
  {
    SplitAt(d, size, k);
    SplitBounds(d, size);
    StepMul(size, k);
    if k == |Split(d, size)| - 1 {
      WholePiece(d, 2 * size * k, 2 * size);
    }
  }

  lemma WholePiece(d: Bytes, lo: nat, w: nat)
    requires lo <= |d| <= lo + w
    ensures Piece(d, lo, w) == d[lo..]
  {
  }

  /** A node's data is its left child's data followed by its right child's, if that has any. */
  lemma SliceHalves(d: Bytes, size: nat, h: nat, k: nat)
    requires size > 0 && h > 0 && Offset(size, h, k) < |d|
    ensures Offset(size, h - 1, 2 * k) < |d|
    ensures var all, half := Slice(d, size, h, k), Width(size, h - 1);
            if Offset(size, h - 1, 2 * k + 1) < |d| then
              && |all| > half
              && all[..half] == Slice(d, size, h - 1, 2 * k)
              && all[half..] == Slice(d, size, h - 1, 2 * k + 1)
            else
              |all| <= half && all == Slice(d, size, h - 1, 2 * k)
  {
    OffsetNext(size, h - 1, 2 * k);
    PieceHalves(d, Offset(size, h, k), Width(size, h - 1));
  }

  /** A node's value is the tree value of its data. */
  lemma {:induction false} ValueIsTreeValue(w: Plan, d: Bytes, h: nat, k: nat)
    requires w.Valid() && w.x.segs == Split(d, w.x.size) && |d| > 0 && k <= w.Edge(h)
    ensures Offset(w.x.size, h, k) < |d|
    ensures Value(w, h, k) == TreeValue(w.x.H, w.x.size, Slice(d, w.x.size, h, k), h)
  {
    var size := w.x.size;
    EdgeIsOffset(d, size, h, k);
    if h == 0 {
      SegmentIsSlice(d, size, k);
    } else {
      SliceHalves(d, size, h, k);
      EdgeIsOffset(d, size, h - 1, 2 * k + 1);
      ValueIsTreeValue(w, d, h - 1, 2 * k);
      if Balanced(w, Pos(h, k)) {
        ValueIsTreeValue(w, d, h - 1, 2 * k + 1);
      }
    }
  }

  /** The value the tree computes for a chunk is the reference hash of its data. */
  lemma ResultIsReference(H: Bytes -> Bytes, size: nat, count: nat, d: Bytes)
    requires size > 0 && count > 0 && |d| <= count * size
    ensures Result(PlanOf(H, size, count, d)) == Reference(H, size, count, d)
  {
    var w := PlanOf(H, size, count, d);
    if |d| <= 2 * size {
      ReferenceIsTreeValue(H, size, count, d, 0);
    } else {
      EdgeIsOffset(d, size, w.root, 1);
      OffsetNext(size, w.root, 0);
      OffsetZero(size, w.root);
      ValueIsTreeValue(w, d, w.root, 0);
      ReferenceIsTreeValue(H, size, count, d, w.root);
      assert Slice(d, size, w.root, 0) == d;
    }
  }

  lemma OffsetZero(size: nat, h: nat)
    ensures Offset(size, h, 0) == 0
  {
  }

  // ------------------------------------------------------------ the start state

  /** The nodes that hold data are nodes of the tree. */
  lemma {:induction false} ActiveInTree(w: Plan, p: Pos)
    requires w.Valid() && Active(w, p)
    ensures InTree(w.x.depth, p)
  {
    EdgeBound(w, p.h);
  }

  lemma {:induction false} EdgeBound(w: Plan, h: nat)
    requires w.Valid() && h <= w.x.depth
    ensures w.Edge(h) < Pow2(w.x.depth - h)
    decreases w.x.depth - h
  {
    if h == w.x.depth {
      EdgeZeroAbove(w, h);
    } else {
      EdgeBound(w, h + 1);
    }
  }

  lemma {:induction false} EdgeZeroAbove(w: Plan, h: nat)
    requires w.Valid() && h >= w.root
    ensures w.Edge(h) == 0
  {
    if h > w.root {
      EdgeZeroAbove(w, h - 1);
    }
  }

  ghost const AllPending: Phases := p => Pending

  lemma InitialCore(w: Plan, nodes: map<Pos, Node>)
    requires w.Valid() && Clean(w.x.depth, nodes)
    ensures Core(w, nodes, Initial(w.x, nodes), AllPending)
  {
    var s := Initial(w.x, nodes);
    forall p | Active(w, p)
      ensures p in nodes && FlagsOk(w, s, p)
    {
      ActiveInTree(w, p);
    }
    forall p | Active(w, p) ensures PhaseOk(w, s, AllPending, p) {
      if p.h < w.root {
        ActiveParent(w, p);
      }
    }
    forall k | 0 <= k < |w.x.segs| ensures LeafOk(w, nodes, s, AllPending, k) {
      assert Active(w, Pos(0, k));
    }
  }

  lemma InitialInv(w: Plan, nodes: map<Pos, Node>)
    requires w.Valid() && Clean(w.x.depth, nodes) && Unwrapped(w.x.Last(), nodes)
    ensures Inv(w, nodes, Initial(w.x, nodes), AllPending)
  {
    InitialCore(w, nodes);
    forall p | Active(w, p) && p.h > 0 && Balanced(w, p)
      ensures p in nodes && CounterReady(nodes[p].state)
    {
      ActiveInTree(w, p);
    }
  }

  /** Goroutines meet only where there is data. */
  lemma MeetsActive(w: Plan, p: Pos)
    requires w.Valid() && Meets(w.x.Last(), p)
    ensures Active(w, p) && Balanced(w, p)
  {
    if p.h > w.root {
      EdgeZeroAbove(w, p.h - 1);
    }
  }

  // ------------------------------------------------------------- whole runs

  /** A sequence of steps, each enabled when it is taken. */
  ghost predicate IsRun(x: Chunk, s: State, acts: seq<Action>)
    decreases |acts|
  {
    |acts| > 0 ==> Enabled(x, s, acts[0]) && IsRun(x, Step(x, s, acts[0]), acts[1..])
  }

  ghost function Exec(x: Chunk, s: State, acts: seq<Action>): State
    requires IsRun(x, s, acts)
    decreases |acts|
  {
    if |acts| == 0 then s else Exec(x, Step(x, s, acts[0]), acts[1..])
  }

  lemma {:induction false} RunKeeps(w: Plan, init: map<Pos, Node>, s: State, ph: Phases, acts: seq<Action>)
    returns (ph': Phases)
    requires Inv(w, init, s, ph) && IsRun(w.x, s, acts)
    ensures Inv(w, init, Exec(w.x, s, acts), ph')
    decreases |acts|
  {
    if |acts| == 0 {
      ph' := ph;
    } else {
      var ph1 := StepKeeps(w, init, s, ph, acts[0]);
      ph' := RunKeeps(w, init, Step(w.x, s, acts[0]), ph1, acts[1..]);
    }
  }

  // --------------------------------------------------------------- progress

  /** Below a node without output some goroutine can take a step. */
  lemma {:induction false} WorkerBelow(w: Plan, init: map<Pos, Node>, s: State, ph: Phases, p: Pos) returns (g: nat)
    requires Inv(w, init, s, ph) && s.stage.Running? && Active(w, p) && ph(p).Pending?
    ensures GoroutineEnabled(w.x, s, g)
    decreases p.h
  {
    if p.h == 0 {
      g := p.k;
      assert LeafOk(w, init, s, ph, p.k);
    } else {
      assert NodeOk(w, init, s, ph, p);
      var l := !ph(Child(p, true)).Parked?;
      var c := Child(p, l);
      ActiveChild(w, p, l);
      assert PhaseOk(w, s, ph, c);
      if ph(c).Pending? {
        g := WorkerBelow(w, init, s, ph, c);
      } else {
        g := ph(c).g;
      }
    }
  }

  /** A run that has not delivered its result can go on. */
  lemma NeverStuck(w: Plan, init: map<Pos, Node>, s: State, ph: Phases) returns (a: Action)
    requires Inv(w, init, s, ph) && s.results == []
    ensures Enabled(w.x, s, a)
  {
    if s.stage.Running? {
      var r := Pos(w.root, 0);
      assert Active(w, r) && PhaseOk(w, s, ph, r);
      if ph(r).Pending? {
        var g := WorkerBelow(w, init, s, ph, r);
        a := Goroutine(g);
      } else {
        a := Receive(ph(r).g);
      }
    } else {
      a := Caller;
      if s.stage.Marking? {
        assert FlagsOk(w, s, s.stage.pos);
      }
    }
  }
}
