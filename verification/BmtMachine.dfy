/**
 The concurrent binary Merkle tree hasher (common/bmt/bmt.go) as a state machine.

 One chunk is hashed on one tree. The calling goroutine launches a goroutine per
 full double segment, then `Sum` marks the path of the last double segment node by
 node and launches the last goroutine. Goroutines interleave freely: storing into a
 node, toggling its counter and combining its two halves are separate steps.

 A node is named by its height above the leaves and its index on that level.
 */
module BmtMachine {
  import opened BmtReference

  datatype Pos = Pos(h: nat, k: nat)

  /** A chunk to hash: the base hash, the segment size, the tree depth and the double segments. */
  datatype Chunk = Chunk(H: Bytes -> Bytes, size: nat, depth: nat, segs: seq<Bytes>) {
    /** Index of the last double segment: the hasher's `cur` when `Sum` is called. */
    function Last(): nat
      requires |segs| > 0
    {
      |segs| - 1
    }

    /** `Sum` marks from the parent of the leaf when the last double segment holds more than one segment. */
    predicate SkipsLeaf()
      requires |segs| > 0
    {
      |segs[Last()]| > size && Last() > 0 && depth > 0
    }
  }

  datatype Node = Node(left: Bytes, right: Bytes, state: int, unbalanced: bool, root: bool)

  const TWO31: int := 0x8000_0000

  /** `atomic.AddInt32(&state, 1)`, with wrap-around. */
  function Bump(state: int): int {
    if state == TWO31 - 1 then -TWO31 else state + 1
  }

  /** Go's `%` takes the sign of the dividend, so a negative odd counter gives -1. */
  function GoMod2(x: int): int {
    if x >= 0 then x % 2 else -((-x) % 2)
  }

  /** The result of `Node.toggle` on a counter: whether the caller is told to wait. */
  predicate ToggleWaits(state: int) {
    GoMod2(Bump(state)) == 1
  }

  /** A goroutine, by the next thing it does. */
  datatype Proc =
    | Absent
    | Hashing(d: nat)
    | Storing(pos: Pos, isLeft: bool, i: nat, d: nat, s: Bytes)
    | Toggling(pos: Pos, isLeft: bool, i: nat, d: nat)
    | Combining(pos: Pos, isLeft: bool, i: nat, d: nat)
    | Sending(s: Bytes)
    | Returned

  /** Where the caller is: writing, in the loop of `finalise`, past it, or waiting for the result. */
  datatype Stage = Writing | Marking(pos: Pos, isLeft: bool, d: nat) | Marked(d: nat) | Running

  datatype State = State(
    nodes: map<Pos, Node>, procs: seq<Proc>, launched: nat, stage: Stage, results: seq<Bytes>)

  /** What can happen next: the caller moves on, a goroutine moves on, or the caller receives a result. */
  datatype Action = Caller | Goroutine(g: nat) | Receive(g: nat)

  /** `Hasher.writeSegment`: a double segment is hashed at once, a lone segment starts at its leaf. */
  function WriteSegment(x: Chunk, i: nat, d: nat): Proc
    requires i < |x.segs|
  {
    if |x.segs[i]| > x.size && x.depth > 0 then Hashing(d)
    else Storing(Pos(0, i), true, 2 * i, d, x.segs[i])
  }

  /** The node update in one iteration of `Hasher.finalise`. */
  function MarkNode(n: Node, p: Pos, isLeft: bool): Node {
    n.(unbalanced := isLeft, right := [], root := n.root || p.k == 0)
  }

  predicate CallerEnabled(x: Chunk, s: State) {
    && 0 < |x.segs| == |s.procs|
    && match s.stage
       case Writing => s.launched < |x.segs|
       case Marking(p, _, _) => p in s.nodes
       case Marked(_) => true
       case Running => false
  }

  function CallerStep(x: Chunk, s: State): State
    requires CallerEnabled(x, s)
  {
    match s.stage
    case Writing =>
      var i := x.Last();
      if s.launched < i then
        s.(procs := s.procs[s.launched := WriteSegment(x, s.launched, x.depth)], launched := s.launched + 1)
      else if x.SkipsLeaf() then
        s.(stage := Marking(Pos(1, i / 2), i % 2 == 0, 0))
      else
        s.(stage := Marking(Pos(0, i), true, 0))
    case Marking(p, isLeft, d) =>
      s.(nodes := s.nodes[p := MarkNode(s.nodes[p], p, isLeft)],
         stage := if p.k == 0 then Marked(d) else Marking(Pos(p.h + 1, p.k / 2), p.k % 2 == 0, d + 1))
    case Marked(d) =>
      s.(procs := s.procs[x.Last() := WriteSegment(x, x.Last(), d)], launched := |x.segs|, stage := Running)
  }

  predicate GoroutineEnabled(x: Chunk, s: State, g: nat) {
    && g < |s.procs| == |x.segs|
    && match s.procs[g]
       case Hashing(_) => Pos(0, g) in s.nodes
       case Storing(p, _, _, _, _) => p in s.nodes
       case Toggling(p, _, _, _) => p in s.nodes
       case Combining(p, _, _, _) => p in s.nodes
       case _ => false
  }

  /** What `run` pushes upwards from a node. */
  function Combine(H: Bytes -> Bytes, n: Node, isLeft: bool, i: nat, d: nat): Bytes {
    if !n.unbalanced || !isLeft || (i == 0 && d == 0) then H(n.left + n.right) else n.left + n.right
  }

  /** One step of the goroutine launched for double segment `g`. */
  function GoroutineStep(x: Chunk, s: State, g: nat): State
    requires GoroutineEnabled(x, s, g)
  {
    match s.procs[g]
    case Hashing(d) =>
      var v := x.H(x.segs[g]);
      s.(procs := s.procs[g := if s.nodes[Pos(0, g)].root then Sending(v)
                               else Storing(Pos(1, g / 2), g % 2 == 0, g, d, v)])
    case Storing(p, isLeft, i, d, v) =>
      var n := s.nodes[p];
      s.(nodes := s.nodes[p := if isLeft then n.(left := v) else n.(right := v)],
         procs := s.procs[g := Toggling(p, isLeft, i, d)])
    case Toggling(p, isLeft, i, d) =>
      var n := s.nodes[p];
      if n.unbalanced then
        s.(procs := s.procs[g := Combining(p, isLeft, i, d)])
      else
        s.(nodes := s.nodes[p := n.(state := Bump(n.state))],
           procs := s.procs[g := if ToggleWaits(n.state) then Returned else Combining(p, isLeft, i, d)])
    case Combining(p, isLeft, i, d) =>
      var n := s.nodes[p];
      var v := Combine(x.H, n, isLeft, i, d);
      s.(procs := s.procs[g := if n.root then Sending(v)
                               else Storing(Pos(p.h + 1, p.k / 2), p.k % 2 == 0, i + 1, d, v)])
  }

  predicate ReceiveEnabled(s: State, g: nat) {
    s.stage.Running? && g < |s.procs| && s.procs[g].Sending?
  }

  predicate Enabled(x: Chunk, s: State, a: Action) {
    match a
    case Caller => CallerEnabled(x, s)
    case Goroutine(g) => GoroutineEnabled(x, s, g)
    case Receive(g) => ReceiveEnabled(s, g)
  }

  function Step(x: Chunk, s: State, a: Action): State
    requires Enabled(x, s, a)
  {
    match a
    case Caller => CallerStep(x, s)
    case Goroutine(g) => GoroutineStep(x, s, g)
    case Receive(g) => s.(procs := s.procs[g := Returned], results := s.results + [s.procs[g].s])
  }

  /** The tree positions, and the state `NewTree` and `releaseTree` leave them in. */
  function Pow2(n: nat): (r: nat)
    ensures r > 0
  {
    if n == 0 then 1 else 2 * Pow2(n - 1)
  }

  predicate InTree(depth: nat, p: Pos) {
    p.h <= depth && p.k < Pow2(depth - p.h)
  }

  /** A reusable tree: no node is unbalanced, only the top is root, every counter is even. */
  ghost predicate Clean(depth: nat, nodes: map<Pos, Node>) {
    forall p :: InTree(depth, p) ==>
      && p in nodes
      && !nodes[p].unbalanced
      && nodes[p].root == (p.h == depth)
      && -TWO31 <= nodes[p].state < TWO31
      && nodes[p].state % 2 == 0
  }

  function Initial(x: Chunk, nodes: map<Pos, Node>): State {
    State(nodes, seq(|x.segs|, i => Absent), 0, Writing, [])
  }
}
