/**
 The hasher object (common/bmt/bmt.go): `Write` cuts the input into double segments,
 `Sum` runs the tree under an arbitrary schedule, `releaseTree` and `NewTree` prepare
 the nodes, and `TreePool` hands trees out.
 */
module BmtHasher {
  import opened BmtReference
  import opened BmtMachine
  import opened BmtInvariant
  import opened BmtClimb
  import opened BmtRuns
  import opened BmtTheorem
  import opened BmtCompletion
  import opened BmtReuse

  // --------------------------------------------------- how the segments grow

  /** Data that still fits the open double segment lengthens it. */
  lemma {:induction false} SplitFill(d: Bytes, e: Bytes, size: nat)
    requires size > 0
    requires var segs := Split(d, size); |segs[|segs| - 1]| + |e| <= 2 * size
    ensures var segs := Split(d, size);
            Split(d + e, size) == segs[..|segs| - 1] + [segs[|segs| - 1] + e]
    decreases |d|
  {
    if |d| <= 2 * size {
    } else {
      var rest := d[2 * size..];
      var segs, sub := Split(d, size), Split(rest, size);
      assert segs[|segs| - 1] == sub[|sub| - 1];
      SplitFill(rest, e, size);
      if |e| > 0 || |d + e| > 2 * size {
        assert (d + e)[..2 * size] == d[..2 * size] && (d + e)[2 * size..] == rest + e;
      }
    }
  }

  /** Data after a full double segment opens the next one. */
  lemma {:induction false} SplitNext(d: Bytes, e: Bytes, size: nat)
    requires size > 0 && 0 < |e| <= 2 * size
    requires var segs := Split(d, size); |segs[|segs| - 1]| == 2 * size
    ensures Split(d + e, size) == Split(d, size) + [e]
    decreases |d|
  {
    if |d| <= 2 * size {
      assert (d + e)[..2 * size] == d && (d + e)[2 * size..] == e;
    } else {
      var rest := d[2 * size..];
      SplitNext(rest, e, size);
      assert (d + e)[..2 * size] == d[..2 * size] && (d + e)[2 * size..] == rest + e;
    }
  }

  /** The double segments add up to the data. */
  lemma {:induction false} SplitLength(d: Bytes, size: nat)
    requires size > 0
    ensures var segs := Split(d, size);
            && |d| == 2 * size * (|segs| - 1) + |segs[|segs| - 1]|
            && |segs[|segs| - 1]| <= 2 * size
            && (|segs| > 1 ==> |segs[|segs| - 1]| > 0)
    decreases |d|
  {
    if |d| > 2 * size {
      SplitLength(d[2 * size..], size);
      StepMul(size, |Split(d, size)| - 1);
    }
  }

  /** `Write` reads past the capacity: an odd segment count, an open double segment before the last, too much data. */
  predicate Overrun(size: nat, count: nat, d: Bytes, b: Bytes)
    requires size > 0
  {
    var segs := Split(d, size);
    && count % 2 == 1
    && |segs| - 1 < (count - 1) / 2
    && |segs[|segs| - 1]| > 0
    && |d| + |b| > count * size
  }

  /** The capacity in double segments. */
  lemma CapacityShape(size: nat, count: nat)
    requires size > 0 && count > 0
    ensures var last := (count + 1) / 2;
            count * size == 2 * size * (last - 1) + (if count % 2 == 0 then 2 * size else size)
  {
    var last := (count + 1) / 2;
    if count % 2 == 0 {
      assert count == 2 * last;
      assert (2 * last) * size == 2 * size * last;
      StepMul(size, last);
    } else {
      assert count == 2 * (last - 1) + 1;
      assert (2 * (last - 1) + 1) * size == 2 * (last - 1) * size + size;
      assert 2 * (last - 1) * size == 2 * size * (last - 1);
    }
  }

  /** The open double segment of data that fits is not past the last one. */
  lemma CursorInRange(size: nat, count: nat, d: Bytes)
    requires size > 0 && count > 0 && |d| <= count * size
    ensures var segs := Split(d, size);
            var c := |segs| - 1;
            && c <= (count + 1) / 2 - 1
            && |d| == 2 * size * c + |segs[c]|
            && (c < (count + 1) / 2 - 1 ==> 2 * size * c + 2 * size <= 2 * size * ((count + 1) / 2 - 1))
  {
    var segs := Split(d, size);
    SplitLength(d, size);
    CapacityShape(size, count);
    CursorArith(size, (count + 1) / 2, |segs| - 1, |segs[|segs| - 1]|);
  }

  lemma CursorArith(size: nat, last: nat, c: nat, open: nat)
    requires size > 0 && last > 0 && (c > 0 ==> open > 0)
    requires 2 * size * c + open <= 2 * size * (last - 1) + 2 * size
    ensures c <= last - 1
    ensures c < last - 1 ==> 2 * size * c + 2 * size <= 2 * size * (last - 1)
  {
    StepMul(size, last);
    if c > last - 1 {
      MulMonotone(last, c, 2 * size);
    } else if c < last - 1 {
      MulMonotone(c + 1, last - 1, 2 * size);
      StepMul(size, c);
    }
  }

  /** What `Write` starts from: the room left from the open double segment on. */
  lemma WriteStart(size: nat, count: nat, d: Bytes)
    requires size > 0 && count > 0 && |d| <= count * size
    ensures var segs := Split(d, size);
            var c, last := |segs| - 1, (count + 1) / 2;
            var want := count * size - c * 2 * size;
            && c <= last - 1
            && |segs[c]| <= want && |segs[c]| <= 2 * size
            && (c < last - 1 ==> want >= 3 * size)
            && (c == last - 1 ==> want == if count % 2 == 0 then 2 * size else size)
            && want - |segs[c]| == count * size - |d|
  {
    CursorInRange(size, count, d);
    CapacityShape(size, count);
    SplitLength(d, size);
    var c := |Split(d, size)| - 1;
    assert c * 2 * size == 2 * size * c;
  }

  /**
   What the loop of `Write` leaves: of the first `total` input bytes `rest` are taken
   and `need` still wanted; `s` is open after `out`; it started at double segment `c`.
   */
  ghost predicate Taken(size: nat, last: nat, d: Bytes, b: Bytes, c: nat, want: int, total: int,
                        out: seq<Bytes>, s: Bytes, rest: int, need: int)
    requires size > 0
  {
    && 0 <= rest <= |b|
    && c <= |out| <= last - 1
    && Split(d + b[..rest], size) == out + [s]
    && (need > 0 ==> rest + need == total)
    && (need <= 0 ==> rest == total)
    && (need > 0 ==> |s| == if want <= size then size else 2 * size)
    && |s| <= 2 * size
    && (want <= size ==> |out| == c && |s| <= size)
  }

  /** Where the loop of `Write` stops, in data bytes: `n` bytes in `i` full double segments and an open one. */
  lemma WriteStops(size: nat, count: nat, taken: Bytes, i: nat)
    requires size > 0 && count > 0 && i == |Split(taken, size)| - 1 && i <= (count + 1) / 2 - 1
    ensures var tail := if count % 2 == 0 then 2 * size else size;
            && (i == (count + 1) / 2 - 1 ==> |taken| == count * size - tail + |Split(taken, size)[i]|)
            && (i < (count + 1) / 2 - 1 ==> |taken| <= count * size - tail)
  {
    var last := (count + 1) / 2;
    CapacityShape(size, count);
    SplitLength(taken, size);
    if i < last - 1 {
      MulMonotone(i + 1, last - 1, 2 * size);
      StepMul(size, i);
    }
  }

  lemma WriteEnd(size: nat, count: nat, cap: nat, d: Bytes, b: Bytes, c: nat, want: int, total: int,
                 out: seq<Bytes>, s: Bytes, rest: int, need: int)
    requires size > 0 && count > 0 && |d| <= cap
    requires total == if |b| < want then |b| else want
    requires var segs := Split(d, size);
             && c == |segs| - 1
             && c <= (count + 1) / 2 - 1
             && |segs[c]| <= want && |segs[c]| <= 2 * size
             && (c < (count + 1) / 2 - 1 ==> want >= 3 * size)
             && (c == (count + 1) / 2 - 1 ==> want == if count % 2 == 0 then 2 * size else size)
             && want - |segs[c]| == cap - |d|
    requires Taken(size, (count + 1) / 2, d, b, c, want, total, out, s, rest, need)
    requires need <= 0 || |out| == (count + 1) / 2 - 1
    requires |out| == (count + 1) / 2 - 1 ==> |d| + rest == cap - (if count % 2 == 0 then 2 * size else size) + |s|
    requires |out| < (count + 1) / 2 - 1 ==> |d| + rest <= cap - (if count % 2 == 0 then 2 * size else size)
    ensures if count % 2 == 1 && c < (count - 1) / 2 && |Split(d, size)[c]| > 0 && |d| + |b| > cap
            then |out| == (count - 1) / 2 && |s| > size
            else Split(Truncate(d + b, cap), size) == out + [s]
  {
    if |d| + |b| <= cap {
      assert rest == |b|;
      assert d + b[..rest] == d + b;
    } else if !(count % 2 == 1 && c < (count - 1) / 2 && |Split(d, size)[c]| > 0) {
      assert |d| + rest == cap;
      assert d + b[..rest] == (d + b)[..cap];
    }
  }

  /** The length prefix that `ResetWithLength` asks `Sum` to hash in front of the result. */
  datatype Length = NoLength | WithLength(l: Bytes)

  function Seal(H: Bytes -> Bytes, length: Length, c: Bytes): Bytes {
    match length
    case NoLength => c
    case WithLength(l) => H(l + c)
  }

  /** The tree a hasher holds, if any. */
  datatype Held = NoTree | Tree(nodes: map<Pos, Node>)

  /** `Hasher`: between `Reset` and `Sum` it holds a tree of the pool. */
  class Hasher {
    const pool: TreePool
    var bmt: Held
    var cur: nat
    var segment: Bytes
    var launched: seq<Bytes>
    var blockLength: Length
    ghost var log: seq<Bytes>

    constructor (pool: TreePool)
      requires pool.Valid()
      ensures this.pool == pool && Idle()
    {
      this.pool := pool;
      bmt, cur, segment, launched, blockLength, log := NoTree, 0, [], [], NoLength, [];
    }

    /** The hasher holds no tree and no data. */
    ghost predicate Idle()
      reads this
    {
      bmt.NoTree? && cur == 0 && segment == [] && launched == []
    }

    /**
     The hasher has taken in the data `d`: all full double segments but the open one are
     launched. Its tree is worn by the chunks in `log`.
     */
    ghost predicate Represents(d: Bytes)
      reads this
    {
      && pool.size > 0 && pool.segmentCount > 0
      && bmt.Tree? && Worn(pool.size, pool.segmentCount, log, bmt.nodes)
      && |d| <= pool.segmentCount * pool.size
      && cur == |launched|
      && Split(d, pool.size) == launched + [segment]
    }

    /** What `Reset` relies on: an idle hasher that the pool does not block, or one that has taken in `d`. */
    ghost predicate CanReset(d: Bytes)
      reads this, pool
    {
      pool.Valid() && if bmt.NoTree? then Idle() && d == [] && !pool.Blocked() else Represents(d)
    }

    /**
     `Reset`, once it does not block: an idle hasher gets the pool's next tree, and one
     that already holds a tree keeps it together with the data it has taken in.
     */
    method Reset(ghost d: Bytes)
      requires CanReset(d)
      modifies this`bmt, this`log, this`blockLength, pool
      ensures Represents(d) && blockLength == NoLength && pool.Valid()
      ensures if old(bmt).Tree?
              then log == old(log) && pool.reserved == old(pool.reserved) && pool.logs == old(pool.logs)
              else pool.reserved == old(pool.reserved) + 1 && (log, pool.logs) == old(pool.Next())
    {
      if bmt.NoTree? {
        var t := pool.Reserve();
        log := pool.taken;
        bmt := Tree(t);
      }
      blockLength := NoLength;
    }

    /** `ResetWithLength`: as `Reset`, and the next `Sum` seals the tree's result with `l` in front. */
    method ResetWithLength(l: Bytes, ghost d: Bytes)
      requires CanReset(d)
      modifies this`bmt, this`log, this`blockLength, pool
      ensures Represents(d) && blockLength == WithLength(l) && pool.Valid()
      ensures if old(bmt).Tree?
              then log == old(log) && pool.reserved == old(pool.reserved) && pool.logs == old(pool.logs)
              else pool.reserved == old(pool.reserved) + 1 && (log, pool.logs) == old(pool.Next())
    {
      Reset(d);
      blockLength := WithLength(l);
    }

    /**
     `Write`: the new contents are the old ones followed by the input, cut off at the
     capacity, unless the input overruns it; then the last double segment is too long.
     */
    method Write(b: Bytes, ghost d: Bytes)
      requires Represents(d)
      modifies this`cur, this`segment, this`launched
      ensures !Overrun(pool.size, pool.segmentCount, d, b) ==>
                Represents(Truncate(d + b, pool.segmentCount * pool.size))
      ensures Overrun(pool.size, pool.segmentCount, d, b) ==>
                cur == |launched| == (pool.segmentCount - 1) / 2 && |segment| > pool.size
    {
      if |b| <= 0 {
        assert d + b == d;
        return;
      }
      var size, count := pool.size, pool.segmentCount;
      var last := (count + 1) / 2;
      var need := count * size - cur * 2 * size;
      WriteStart(size, count, d);
      var s, out, rest, left := Cut(size, last, b, segment, launched, need, d);
      WriteStops(size, count, d + b[..rest], |out|);
      WriteEnd(size, count, count * size, d, b, cur, need, if |b| < need then |b| else need, out, s, rest, left);
      segment, cur, launched := s, |out|, out;
    }

    /**
     `Sum` under an arbitrary schedule: in every round any enabled step may be taken.
     The loop ends, the value is the sealed reference hash, and the tree goes back to
     the pool, worn by one more chunk.
     */
    method Sum(ghost d: Bytes) returns (r: Bytes)
      requires Represents(d) && pool.Valid() && pool.reserved > 0 && |log| < CHUNKS
      modifies this, pool
      ensures r == Seal(pool.H, old(blockLength), Reference(pool.H, pool.size, pool.segmentCount, d))
      ensures Idle() && blockLength == old(blockLength) && pool.Valid()
      ensures pool.reserved == old(pool.reserved) - 1 && pool.logs == old(pool.logs) + [old(log) + [d]]
    {
      var size, count := pool.size, pool.segmentCount;
      var depth := ComputeDepth(count);
      var x := Chunk(pool.H, size, depth, launched + [segment]);
      ghost var w := PlanOf(pool.H, size, count, d);
      ResultIsReference(pool.H, size, count, d);
      WornUnwrapped(size, count, log, bmt.nodes, d);
      var after, c := RunChunk(x, bmt.nodes, w);
      var t := ReleaseTree(depth, after, cur);
      WornNext(size, count, log, d, bmt.nodes, t);
      pool.Release(t, log + [d]);
      bmt, cur, segment, launched := NoTree, 0, [], [];
      r := c;
      if blockLength.WithLength? {
        r := pool.H(blockLength.l + r);
      }
    }
  }

  /** The goroutines of a chunk under an arbitrary schedule, until the result is received. */
  method RunChunk(x: Chunk, nodes: map<Pos, Node>, ghost w: Plan) returns (after: map<Pos, Node>, r: Bytes)
    requires w.Valid() && w.x == x && Clean(x.depth, nodes) && Unwrapped(x.Last(), nodes)
    ensures r == Result(w)
    ensures var t := Release(x.depth, after, Pos(0, x.Last()));
            Clean(x.depth, t) && Counted(x.depth, x.Last(), nodes, t)
  {
    var s := Initial(x, nodes);
    ghost var ph := AllPending;
    InitialInv(w, nodes);
    while s.results == []
      invariant Inv(w, nodes, s, ph)
      decreases Work(x, s)
    {
      var hint: Action := *;
      ghost var possible := NeverStuck(w, nodes, s, ph);
      var a := Pick(x, s, hint);
      StepWorks(w, nodes, s, ph, a);
      ph := StepKeeps(w, nodes, s, ph, a);
      s := Step(x, s, a);
    }
    DeliveredResult(w, nodes, s, ph);
    ReleasedClean(w, nodes, s, ph);
    after, r := s.nodes, s.results[0];
  }

  lemma DeliveredResult(w: Plan, init: map<Pos, Node>, s: State, ph: Phases)
    requires Inv(w, init, s, ph) && s.results != []
    ensures s.results == [Result(w)]
  {
    assert Active(w, Pos(w.root, 0)) && PhaseOk(w, s, ph, Pos(w.root, 0));
  }

  /** The scheduler: the suggested step if it is enabled, otherwise some enabled step. */
  method Pick(x: Chunk, s: State, hint: Action) returns (a: Action)
    requires exists b :: Enabled(x, s, b)
    ensures Enabled(x, s, a) && (Enabled(x, s, hint) ==> a == hint)
  {
    if Enabled(x, s, hint) {
      return hint;
    }
    if CallerEnabled(x, s) {
      return Caller;
    }
    var g: nat := 0;
    ghost var b :| Enabled(x, s, b);
    ghost var least := if b.Goroutine? then b.g else b.g;
    while !GoroutineEnabled(x, s, g) && !ReceiveEnabled(s, g)
      invariant g <= least
      decreases least - g
    {
      g := g + 1;
    }
    a := if GoroutineEnabled(x, s, g) then Goroutine(g) else Receive(g);
  }

  /** `releaseTree`: clear the flags from leaf `cur` up to the top. */
  method ReleaseTree(depth: nat, nodes: map<Pos, Node>, cur: nat) returns (r: map<Pos, Node>)
    ensures r == Release(depth, nodes, Pos(0, cur))
  {
    r := nodes;
    var p := Pos(0, cur);
    while p.h < depth
      invariant p.h <= depth && Release(depth, r, p) == Release(depth, nodes, Pos(0, cur))
      decreases depth - p.h
    {
      if p in r {
        r := r[p := r[p].(unbalanced := false, root := false)];
      }
      p := Pos(p.h + 1, p.k / 2);
    }
    if p in r {
      r := r[p := r[p].(unbalanced := false)];
    }
  }

  /** The nodes of the top `n` levels of a tree, all untouched and only the top marked root. */
  ghost predicate TopLevels(depth: nat, n: nat, nodes: map<Pos, Node>) {
    && (forall p :: p in nodes <==> InTree(depth, p) && p.h + n > depth)
    && (forall p :: p in nodes ==> nodes[p] == Node([], [], 0, false, p.h == depth))
  }

  lemma NextLevel(depth: nat, n: nat, nodes: map<Pos, Node>, r: map<Pos, Node>)
    requires 0 < n <= depth && TopLevels(depth, n, nodes)
    requires forall p :: p in r <==> p in nodes || (p.h == depth - n && p.k < Pow2(n))
    requires forall p :: p in r ==>
               r[p] == if p.h == depth - n && p.k < Pow2(n) then Node([], [], 0, false, false) else nodes[p]
    ensures TopLevels(depth, n + 1, r)
  {
    forall p
      ensures p in r <==> InTree(depth, p) && p.h + n + 1 > depth
    {
      if p.h == depth - n {
        assert depth - p.h == n;
      }
    }
  }

  lemma TopLevel(depth: nat)
    ensures TopLevels(depth, 1, map[Pos(depth, 0) := Node([], [], 0, false, true)])
  {
    assert Pow2(0) == 1;
  }

  /** A new tree is clean and unused. */
  lemma AllLevels(size: nat, count: nat, nodes: map<Pos, Node>)
    requires size > 0 && count > 0 && TopLevels(Depth(count), Depth(count) + 1, nodes)
    ensures Worn(size, count, [], nodes)
  {
  }

  /** `NewTree`: a complete tree, level by level from the top. */
  method NewTree(segmentCount: nat) returns (nodes: map<Pos, Node>)
    requires segmentCount > 0
    ensures TopLevels(Depth(segmentCount), Depth(segmentCount) + 1, nodes)
  {
    var depth := ComputeDepth(segmentCount);
    nodes := map[Pos(depth, 0) := Node([], [], 0, false, true)];
    TopLevel(depth);
    var count, d := 2, 1;
    while d <= depth
      invariant 1 <= d <= depth + 1 && count == Pow2(d) && TopLevels(depth, d, nodes)
    {
      var r := NewLevel(nodes, depth - d, count);
      NextLevel(depth, d, nodes, r);
      nodes, count, d := r, count * 2, d + 1;
    }
  }

  /** One level of `NewTree`: `count` nodes at height `h`. */
  method NewLevel(nodes: map<Pos, Node>, h: nat, count: nat) returns (r: map<Pos, Node>)
    ensures forall p :: p in r <==> p in nodes || (p.h == h && p.k < count)
    ensures forall p :: p in r ==>
              r[p] == if p.h == h && p.k < count then Node([], [], 0, false, false) else nodes[p]
  {
    r := nodes;
    for i := 0 to count
      invariant forall p :: p in r <==> p in nodes || (p.h == h && p.k < i)
      invariant forall p :: p in r ==>
                  r[p] == if p.h == h && p.k < i then Node([], [], 0, false, false) else nodes[p]
    {
      r := r[Pos(h, i) := Node([], [], 0, false, false)];
    }
  }

  /** `TreePool`: trees are free or reserved, `count` tells how many exist, and `logs` how each free one is worn. */
  class TreePool {
    const H: Bytes -> Bytes
    const size: nat
    const segmentCount: nat
    const capacity: nat
    var free: seq<map<Pos, Node>>
    var count: nat
    ghost var reserved: nat
    ghost var logs: seq<seq<Bytes>>
    ghost var taken: seq<Bytes>

    ghost predicate Valid()
      reads this
    {
      && size > 0 && segmentCount > 0
      && |free| + reserved == count <= capacity
      && |logs| == |free|
      && forall i :: 0 <= i < |free| ==> Worn(size, segmentCount, logs[i], free[i])
    }

    /** All trees are reserved and no more may be made. */
    predicate Blocked()
      reads this
    {
      count == capacity && free == []
    }

    /** The chunks the next reserved tree is worn by, and those of the trees that stay. */
    ghost function Next(): (seq<Bytes>, seq<seq<Bytes>>)
      reads this
    {
      if logs == [] then ([], []) else (logs[0], logs[1..])
    }

    constructor (H: Bytes -> Bytes, size: nat, segmentCount: nat, capacity: nat)
      requires size > 0 && segmentCount > 0
      ensures Valid() && free == [] && count == 0
      ensures this.H == H && this.size == size && this.segmentCount == segmentCount && this.capacity == capacity
    {
      this.H, this.size, this.segmentCount, this.capacity := H, size, segmentCount, capacity;
      free, count, reserved, logs := [], 0, 0, [];
    }

    /** `Reserve`, once it does not block: a free tree if there is one, otherwise a new and unused one. */
    method Reserve() returns (t: map<Pos, Node>)
      requires Valid() && !Blocked()
      modifies this
      ensures Valid() && Worn(size, segmentCount, taken, t) && reserved == old(reserved) + 1
      ensures taken == old(Next()).0 && logs == old(Next()).1
      ensures if old(free) != [] then t == old(free)[0] && free == old(free)[1..] && count == old(count)
              else free == [] && count == old(count) + 1
    {
      taken := Next().0;
      logs := Next().1;
      if |free| > 0 {
        t, free := free[0], free[1..];
      } else {
        t := NewTree(segmentCount);
        AllLevels(size, segmentCount, t);
        count := count + 1;
      }
      reserved := reserved + 1;
    }

    /** `Release` never blocks: a reserved tree leaves room in the channel. */
    method Release(t: map<Pos, Node>, ghost log: seq<Bytes>)
      requires Valid() && reserved > 0 && Worn(size, segmentCount, log, t)
      modifies this
      ensures Valid() && |old(free)| < capacity
      ensures free == old(free) + [t] && count == old(count)
      ensures logs == old(logs) + [log] && reserved == old(reserved) - 1
    {
      free, logs := free + [t], logs + [log];
      reserved := reserved - 1;
    }

    /** `Drain`: drop free trees until no more than `n` are left. */
    method Drain(n: nat)
      requires Valid()
      modifies this
      ensures Valid() && reserved == old(reserved)
      ensures |free| == if |old(free)| > n then n else |old(free)|
      ensures free == old(free)[|old(free)| - |free|..]
    {
      while |free| > n
        invariant Valid() && reserved == old(reserved) && |free| <= |old(free)|
        invariant free == old(free)[|old(free)| - |free|..]
        invariant |free| >= n || |free| == |old(free)|
      {
        free, logs := free[1..], logs[1..];
        count := count - 1;
      }
    }
  }

  /** The body of `Write` from the open double segment `s0` after `out0` with room for `want` bytes. */
  method Cut(size: nat, last: nat, b: Bytes, s0: Bytes, out0: seq<Bytes>, want: int, ghost d: Bytes)
    returns (s: Bytes, out: seq<Bytes>, rest: int, need: int)
    requires size > 0 && |b| > 0 && Split(d, size) == out0 + [s0]
    requires |out0| <= last - 1 && |s0| <= want && |s0| <= 2 * size
    requires |out0| < last - 1 ==> want >= 3 * size
    requires |out0| == last - 1 ==> want == size || want == 2 * size
    ensures Taken(size, last, d, b, |out0|, want, if |b| < want then |b| else want, out, s, rest, need)
    ensures need <= 0 || |out| == last - 1
  {
    var l, sz := |b|, size;
    s, out, need := s0, out0, want;
    if need > sz {
      sz := sz * 2;
    }
    if l < need {
      need := l;
    }
    ghost var total := need;
    rest := sz - |s|;
    if need < rest {
      rest := need;
    }
    SplitFill(d, b[..rest], size);
    s := s + b[..rest];
    need := need - rest;
    var i := |out0|;
    while need > 0 && i < last - 1
      invariant Taken(size, last, d, b, |out0|, want, total, out, s, rest, need) && i == |out|
      invariant need > 0 ==> sz == |s|
      decreases last - i
    {
      out := out + [s];
      need := need - sz;
      if need < 0 {
        sz := sz + need;
      }
      SplitNext(d + b[..rest], b[rest..rest + sz], size);
      assert d + b[..rest] + b[rest..rest + sz] == d + b[..rest + sz];
      s := b[rest..rest + sz];
      rest := rest + sz;
      i := i + 1;
    }
  }

  /** The inputs of several `Write` calls put together. */
  function Join(parts: seq<Bytes>): Bytes
    decreases |parts|
  {
    if |parts| == 0 then [] else Join(parts[..|parts| - 1]) + parts[|parts| - 1]
  }

  lemma {:induction false} JoinPrefix(parts: seq<Bytes>, i: nat)
    requires i <= |parts|
    ensures |Join(parts[..i])| <= |Join(parts)|
    decreases |parts|
  {
    if i < |parts| {
      var front := parts[..|parts| - 1];
      assert front[..i] == parts[..i];
      JoinPrefix(front, i);
    } else {
      assert parts[..i] == parts;
    }
  }

  /**
   Data that fits, however it is split into `Write` calls, hashes to its reference hash
   under every schedule, on whatever tree the pool hands out.
   */
  method HashWrites(h: Hasher, length: Length, parts: seq<Bytes>) returns (r: Bytes)
    requires h.Idle() && h.pool.Valid() && !h.pool.Blocked() && |h.pool.Next().0| < CHUNKS
    requires |Join(parts)| <= h.pool.segmentCount * h.pool.size
    modifies h, h.pool
    ensures r == Seal(h.pool.H, length, Reference(h.pool.H, h.pool.size, h.pool.segmentCount, Join(parts)))
    ensures h.Idle() && h.pool.Valid() && h.pool.reserved == old(h.pool.reserved) && !h.pool.Blocked()
    ensures var (log, rest) := old(h.pool.Next()); h.pool.logs == rest + [log + [Join(parts)]]
  {
    match length {
      case NoLength => h.Reset([]);
      case WithLength(l) => h.ResetWithLength(l, []);
    }
    ghost var log, rest := h.log, h.pool.logs;
    for i := 0 to |parts|
      invariant h.Represents(Join(parts[..i])) && h.blockLength == length && h.log == log
      invariant h.pool.Valid() && h.pool.logs == rest && h.pool.reserved == old(h.pool.reserved) + 1
    {
      JoinPrefix(parts, i + 1);
      assert parts[..i + 1][..i] == parts[..i];
      ghost var d := Join(parts[..i]);
      h.Write(parts[i], d);
      assert Truncate(d + parts[i], h.pool.segmentCount * h.pool.size) == d + parts[i];
    }
    assert parts[..|parts|] == parts;
    r := h.Sum(Join(parts));
  }

  /** No tree of the pool is worn out by `n` more chunks. */
  ghost predicate Lasts(logs: seq<seq<Bytes>>, n: nat) {
    n <= CHUNKS && forall i :: 0 <= i < |logs| ==> |logs[i]| + n <= CHUNKS
  }

  /** Any sequence of chunks, one after the other through the pool, gives the reference hashes. */
  method HashChunks(h: Hasher, chunks: seq<seq<Bytes>>) returns (rs: seq<Bytes>)
    requires h.Idle() && h.pool.Valid() && !h.pool.Blocked() && Lasts(h.pool.logs, |chunks|)
    requires forall i :: 0 <= i < |chunks| ==> |Join(chunks[i])| <= h.pool.segmentCount * h.pool.size
    modifies h, h.pool
    ensures h.Idle() && h.pool.Valid() && |rs| == |chunks|
    ensures forall i :: 0 <= i < |chunks| ==>
              rs[i] == Reference(h.pool.H, h.pool.size, h.pool.segmentCount, Join(chunks[i]))
  {
    rs := [];
    for i := 0 to |chunks|
      invariant h.Idle() && h.pool.Valid() && !h.pool.Blocked() && Lasts(h.pool.logs, |chunks| - i) && |rs| == i
      invariant forall j :: 0 <= j < i ==>
                  rs[j] == Reference(h.pool.H, h.pool.size, h.pool.segmentCount, Join(chunks[j]))
    {
      var r := HashWrites(h, NoLength, chunks[i]);
      rs := rs + [r];
    }
  }
}
