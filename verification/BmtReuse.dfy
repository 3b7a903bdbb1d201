/**
 Reuse of one tree for any sequence of chunks, and where it ends: the counters of a
 new tree tell exactly how many chunks toggled them, 2^30 chunks give reference
 hashes, and the next one need not.
 */
module BmtReuse {
  import opened BmtReference
  import opened BmtMachine
  import opened BmtInvariant
  import opened BmtClimb
  import opened BmtLeaves
  import opened BmtRuns
  import opened BmtTheorem
  import opened BmtCompletion
  import opened BmtWrap

  /** How many chunks a counter counts before it wraps: two toggles each, 2^31 values. */
  const CHUNKS: int := 0x4000_0000

  /** How many of the chunks have goroutines that meet at node `p`. */
  ghost function Uses(size: nat, log: seq<Bytes>, p: Pos): nat
    requires size > 0
  {
    if log == [] then 0
    else Uses(size, log[..|log| - 1], p) + if Meets(LastLeaf(log[|log| - 1], size), p) then 1 else 0
  }

  /** What a counter shows after `n` uses, up to the first wrap. */
  function Counter(n: nat): int {
    if n < CHUNKS then 2 * n else -TWO31
  }

  /**
   A clean tree on which the chunks `log` were hashed, one after the other: each
   counter tells how many of them met there.
   */
  ghost predicate Worn(size: nat, count: nat, log: seq<Bytes>, nodes: map<Pos, Node>)
    requires size > 0 && count > 0
  {
    && |log| <= CHUNKS
    && Clean(Depth(count), nodes)
    && forall p :: InTree(Depth(count), p) && p in nodes ==> nodes[p].state == Counter(Uses(size, log, p))
  }

  lemma {:induction false} UsesExact(size: nat, log: seq<Bytes>, p: Pos)
    requires size > 0
    ensures Uses(size, log, p) <= |log|
    ensures Uses(size, log, p) == |log| <==> forall i :: 0 <= i < |log| ==> Meets(LastLeaf(log[i], size), p)
    decreases |log|
  {
    if log != [] {
      var front := log[..|log| - 1];
      UsesExact(size, front, p);
      if Uses(size, log, p) == |log| {
        forall i | 0 <= i < |log| ensures Meets(LastLeaf(log[i], size), p) {
          assert i < |front| ==> front[i] == log[i];
        }
      }
    }
  }

  lemma UsesStep(size: nat, log: seq<Bytes>, d: Bytes, p: Pos)
    requires size > 0
    ensures Uses(size, log + [d], p) == Uses(size, log, p) + if Meets(LastLeaf(d, size), p) then 1 else 0
  {
    assert (log + [d])[..|log|] == log;
  }

  lemma CounterStep(n: nat)
    requires n < CHUNKS
    ensures BumpBy(Counter(n), 2) == Counter(n + 1) && BumpBy(Counter(n), 0) == Counter(n)
  {
    BumpTwice(2 * n);
  }

  /** Goroutines of a chunk that fits meet only at nodes of the tree. */
  lemma MeetsInTree(size: nat, count: nat, d: Bytes, p: Pos)
    requires size > 0 && count > 0 && |d| <= count * size && Meets(LastLeaf(d, size), p)
    ensures InTree(Depth(count), p)
  {
    var w := PlanOf((v: Bytes) => v, size, count, d);
    MeetsActive(w, p);
    ActiveInTree(w, p);
  }

  /** No counter has wrapped before 2^30 chunks. */
  lemma WornUnwrapped(size: nat, count: nat, log: seq<Bytes>, nodes: map<Pos, Node>, d: Bytes)
    requires size > 0 && count > 0 && |d| <= count * size && Worn(size, count, log, nodes) && |log| < CHUNKS
    ensures Unwrapped(LastLeaf(d, size), nodes)
  {
    forall p | p in nodes && Meets(LastLeaf(d, size), p) ensures nodes[p].state >= 0 {
      MeetsInTree(size, count, d, p);
      UsesExact(size, log, p);
    }
  }

  lemma WornNext(size: nat, count: nat, log: seq<Bytes>, d: Bytes, nodes: map<Pos, Node>, nodes': map<Pos, Node>)
    requires size > 0 && count > 0 && Worn(size, count, log, nodes) && |log| < CHUNKS
    requires Clean(Depth(count), nodes') && Counted(Depth(count), LastLeaf(d, size), nodes, nodes')
    ensures Worn(size, count, log + [d], nodes')
  {
    forall p | InTree(Depth(count), p) && p in nodes'
      ensures nodes'[p].state == Counter(Uses(size, log + [d], p))
    {
      UsesExact(size, log, p);
      UsesStep(size, log, d, p);
      CounterStep(Uses(size, log, p));
    }
  }

  /** One more chunk on a tree that is not worn out: the reference hash, and a tree worn by that chunk. */
  lemma HashOnce(H: Bytes -> Bytes, size: nat, count: nat, log: seq<Bytes>, d: Bytes,
                 nodes: map<Pos, Node>, acts: seq<Action>, r: Bytes, nodes': map<Pos, Node>)
    requires size > 0 && count > 0 && |d| <= count * size && Worn(size, count, log, nodes) && |log| < CHUNKS
    requires Hashes(H, size, count, d, nodes, acts, r, nodes')
    ensures r == Reference(H, size, count, d) && Worn(size, count, log + [d], nodes')
  {
    WornUnwrapped(size, count, log, nodes, d);
    ChunkReuses(H, size, count, d, nodes, acts, r, nodes');
    WornNext(size, count, log, d, nodes, nodes');
  }

  /** Chunks hashed one after the other on one tree, each under its own interleaving. */
  ghost predicate Chain(H: Bytes -> Bytes, size: nat, count: nat, ds: seq<Bytes>,
                        trees: seq<map<Pos, Node>>, runs: seq<seq<Action>>, rs: seq<Bytes>)
    requires size > 0 && count > 0
  {
    && |ds| == |runs| == |rs| && |trees| == |ds| + 1
    && (forall j :: 0 <= j < |ds| ==> |ds[j]| <= count * size)
    && (forall j :: 0 <= j < |ds| ==> Hashes(H, size, count, ds[j], trees[j], runs[j], rs[j], trees[j + 1]))
  }

  /** Up to 2^30 chunks on a new tree give their reference hashes, and the counters count them. */
  lemma {:induction false} TreeReusable(H: Bytes -> Bytes, size: nat, count: nat, ds: seq<Bytes>,
                                        trees: seq<map<Pos, Node>>, runs: seq<seq<Action>>, rs: seq<Bytes>, i: nat)
    requires size > 0 && count > 0 && Chain(H, size, count, ds, trees, runs, rs)
    requires |ds| <= CHUNKS && Worn(size, count, [], trees[0]) && i <= |ds|
    ensures Worn(size, count, ds[..i], trees[i])
    ensures forall j :: 0 <= j < i ==> rs[j] == Reference(H, size, count, ds[j])
  {
    if i > 0 {
      TreeReusable(H, size, count, ds, trees, runs, rs, i - 1);
      HashOnce(H, size, count, ds[..i - 1], ds[i - 1], trees[i - 1], runs[i - 1], rs[i - 1], trees[i]);
      assert ds[..i] == ds[..i - 1] + [ds[i - 1]];
    }
  }

  // ------------------------------------------------------------- the exact end

  /** A chunk of more than two segments is one whose goroutines meet, and they meet at the first inner node. */
  lemma MeetsFirst(d: Bytes, size: nat, p: Pos)
    requires size > 0
    ensures Meets(LastLeaf(d, size), Pos(1, 0)) <==> |d| > 2 * size
    ensures Meets(LastLeaf(d, size), p) ==> |d| > 2 * size
  {
    assert Anc(LastLeaf(d, size), 0) == LastLeaf(d, size);
    if |d| <= 2 * size && p.h > 0 {
      AncZero(p.h - 1);
    }
  }

  /** Some counter the next chunk toggles has wrapped exactly when 2^30 chunks and this one all have goroutines that meet. */
  lemma WornOut(size: nat, count: nat, log: seq<Bytes>, nodes: map<Pos, Node>, d: Bytes)
    requires size > 0 && count > 0 && |d| <= count * size && Worn(size, count, log, nodes)
    ensures Unwrapped(LastLeaf(d, size), nodes) <==>
            !(|log| == CHUNKS && |d| > 2 * size && forall i :: 0 <= i < |log| ==> |log[i]| > 2 * size)
  {
    var last, first := LastLeaf(d, size), Pos(1, 0);
    if |log| < CHUNKS {
      WornUnwrapped(size, count, log, nodes, d);
    } else if |d| > 2 * size && forall i :: 0 <= i < |log| ==> |log[i]| > 2 * size {
      MeetsFirst(d, size, first);
      MeetsInTree(size, count, d, first);
      forall i | 0 <= i < |log| ensures Meets(LastLeaf(log[i], size), first) {
        MeetsFirst(log[i], size, first);
      }
      UsesExact(size, log, first);
      assert nodes[first].state < 0;
    } else {
      forall p | p in nodes && Meets(last, p) ensures nodes[p].state >= 0 {
        StillPositive(size, count, log, nodes, d, p);
      }
    }
  }

  lemma StillPositive(size: nat, count: nat, log: seq<Bytes>, nodes: map<Pos, Node>, d: Bytes, p: Pos)
    requires size > 0 && count > 0 && |d| <= count * size && Worn(size, count, log, nodes)
    requires !(|d| > 2 * size && forall i :: 0 <= i < |log| ==> |log[i]| > 2 * size)
    requires p in nodes && Meets(LastLeaf(d, size), p)
    ensures nodes[p].state >= 0
  {
    MeetsInTree(size, count, d, p);
    MeetsFirst(d, size, p);
    UsesExact(size, log, p);
    if Uses(size, log, p) == |log| {
      forall i | 0 <= i < |log| ensures |log[i]| > 2 * size {
        MeetsFirst(log[i], size, p);
      }
      assert false;
    }
  }

  /**
   After up to 2^30 chunks on a new tree, the next chunk gives its reference hash for
   every base hash and under every schedule, unless there were 2^30 chunks and all of
   them and the next one are longer than two segments.
   */
  lemma ReuseExact(H: Bytes -> Bytes, size: nat, count: nat, ds: seq<Bytes>,
                   trees: seq<map<Pos, Node>>, runs: seq<seq<Action>>, rs: seq<Bytes>, d: Bytes)
    requires size > 0 && count > 0 && Chain(H, size, count, ds, trees, runs, rs)
    requires |ds| <= CHUNKS && Worn(size, count, [], trees[0]) && |d| <= count * size
    ensures AlwaysReference(size, count, d, trees[|ds|]) <==>
            !(|ds| == CHUNKS && |d| > 2 * size && forall i :: 0 <= i < |ds| ==> |ds[i]| > 2 * size)
  {
    TreeReusable(H, size, count, ds, trees, runs, rs, |ds|);
    assert ds[..|ds|] == ds;
    WornOut(size, count, ds, trees[|ds|], d);
    AlwaysExact(size, count, d, trees[|ds|]);
  }

  // --------------------------------------------------------- reaching the wrap

  /** Any number of copies of a chunk up to 2^30 can be hashed on a new tree. */
  lemma {:induction false} ChainExists(H: Bytes -> Bytes, size: nat, count: nat, d: Bytes, tree: map<Pos, Node>, n: nat)
    returns (trees: seq<map<Pos, Node>>, runs: seq<seq<Action>>, rs: seq<Bytes>)
    requires size > 0 && count > 0 && |d| <= count * size && Worn(size, count, [], tree) && n <= CHUNKS
    ensures Chain(H, size, count, seq(n, i => d), trees, runs, rs) && trees[0] == tree
    decreases n
  {
    if n == 0 {
      trees, runs, rs := [tree], [], [];
    } else {
      trees, runs, rs := ChainExists(H, size, count, d, tree, n - 1);
      var ds := seq(n - 1, i => d);
      TreeReusable(H, size, count, ds, trees, runs, rs, n - 1);
      WornUnwrapped(size, count, ds[..n - 1], trees[n - 1], d);
      var acts, r, next := CanHash(H, size, count, d, trees[n - 1]);
      trees, runs, rs := trees + [next], runs + [acts], rs + [r];
    }
  }

  /**
   The end is reached: with a suitable base hash, 2^30 copies of any chunk longer than
   two segments can be hashed on a new tree, and then the same chunk can hash wrongly.
   */
  lemma WrapReached(size: nat, count: nat, d: Bytes, tree: map<Pos, Node>)
    returns (trees: seq<map<Pos, Node>>, runs: seq<seq<Action>>, rs: seq<Bytes>, acts: seq<Action>)
    requires size > 0 && count > 0 && 2 * size < |d| <= count * size && Worn(size, count, [], tree)
    ensures Chain(Tag(0), size, count, seq(CHUNKS, i => d), trees, runs, rs) && trees[0] == tree
    ensures forall j :: 0 <= j < CHUNKS ==> rs[j] == Reference(Tag(0), size, count, d)
    ensures var x := ChunkOf(Tag(0), size, count, d);
            && IsRun(x, Initial(x, trees[CHUNKS]), acts)
            && var s := Exec(x, Initial(x, trees[CHUNKS]), acts);
               |s.results| == 1 && s.results[0] != Reference(Tag(0), size, count, d)
  {
    trees, runs, rs := ChainExists(Tag(0), size, count, d, tree, CHUNKS);
    var ds := seq(CHUNKS, i => d);
    TreeReusable(Tag(0), size, count, ds, trees, runs, rs, CHUNKS);
    assert ds[..CHUNKS] == ds;
    var w := PlanOf(Tag(0), size, count, d);
    var top := RootWorn(w, size, count, d, ds, trees[CHUNKS]);
    LastNonempty(d, size);
    acts := EarlyResult(w, trees[CHUNKS], top, 0);
    ResultIsReference(Tag(0), size, count, d);
  }

  /** Where every chunk is the same, the counter of its root wraps too. */
  lemma RootWorn(w: Plan, size: nat, count: nat, d: Bytes, ds: seq<Bytes>, nodes: map<Pos, Node>) returns (top: Pos)
    requires size > 0 && count > 0 && 2 * size < |d| <= count * size
    requires w.Valid() && w.x.depth == Depth(count) && w.x.segs == Split(d, size)
    requires |ds| == CHUNKS && (forall i :: 0 <= i < |ds| ==> ds[i] == d) && Worn(size, count, ds, nodes)
    ensures w.root > 0 && OnPath(w, top) && Meets(w.x.Last(), top) && top in nodes && nodes[top].state < 0
  {
    RootPositive(w);
    top := Pos(w.root, 0);
    EdgePositive(w, w.root - 1);
    MeetsInTree(size, count, d, top);
    UsesExact(size, ds, top);
  }
}
