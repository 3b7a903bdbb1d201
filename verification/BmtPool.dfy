/**
 A pool of trees shared by any number of hashers: every sequence of resets, sums and
 drains. A tree has one owner at a time, and as long as it is not worn out every
 chunk summed on it gives the reference hash.
 */
module BmtPool {
  import opened BmtReference
  import opened BmtMachine
  import opened BmtTheorem
  import opened BmtCompletion
  import opened BmtWrap
  import opened BmtReuse

  /** What all hashers of the pool share. */
  datatype Config = Config(H: Bytes -> Bytes, size: nat, count: nat, capacity: nat) {
    predicate Valid() {
      size > 0 && count > 0
    }
  }

  /** A tree and the chunks summed on it so far. */
  datatype Tree = Tree(nodes: map<Pos, Node>, log: seq<Bytes>)

  /** The trees by identity, the free ones in order, and the tree each hasher holds. */
  datatype Pool = Pool(trees: map<nat, Tree>, free: seq<nat>, held: map<nat, nat>, count: nat)

  /**
   A hasher takes the first free tree, or makes one; it sums a chunk under some
   interleaving and gives the tree back; a free tree is dropped.
   */
  datatype Event =
    | Take(h: nat)
    | Make(h: nat, id: nat, nodes: map<Pos, Node>)
    | Sum(h: nat, d: Bytes, acts: seq<Action>, r: Bytes, nodes: map<Pos, Node>)
    | Drop

  ghost predicate Possible(cfg: Config, s: Pool, e: Event)
    requires cfg.Valid()
  {
    match e
    case Take(h) => h !in s.held && s.free != []
    case Make(h, id, nodes) =>
      h !in s.held && s.free == [] && s.count < cfg.capacity && id !in s.trees && Worn(cfg.size, cfg.count, [], nodes)
    case Sum(h, d, acts, r, nodes) =>
      && h in s.held && s.held[h] in s.trees && |d| <= cfg.count * cfg.size
      && Hashes(cfg.H, cfg.size, cfg.count, d, s.trees[s.held[h]].nodes, acts, r, nodes)
    case Drop => s.free != [] && s.count > 0
  }

  ghost function Next(cfg: Config, s: Pool, e: Event): Pool
    requires cfg.Valid() && Possible(cfg, s, e)
  {
    match e
    case Take(h) => s.(free := s.free[1..], held := s.held[h := s.free[0]])
    case Make(h, id, nodes) =>
      s.(trees := s.trees[id := Tree(nodes, [])], held := s.held[h := id], count := s.count + 1)
    case Sum(h, d, _, _, nodes) =>
      var id := s.held[h];
      s.(trees := s.trees[id := Tree(nodes, s.trees[id].log + [d])], free := s.free + [id], held := s.held - {h})
    case Drop => s.(trees := s.trees - {s.free[0]}, free := s.free[1..], count := s.count - 1)
  }

  /** A tree is free once or held by one hasher, and nothing else is free or held. */
  ghost predicate Owned(ids: set<nat>, free: seq<nat>, held: map<nat, nat>) {
    && (forall i, j :: 0 <= i < j < |free| ==> free[i] != free[j])
    && (forall h, g :: h in held && g in held && h != g ==> held[h] != held[g])
    && (forall h :: h in held ==> held[h] !in free && held[h] in ids)
    && (forall id :: id in free ==> id in ids)
    && (forall id :: id in ids && id !in free ==> exists h :: h in held && held[h] == id)
  }

  ghost predicate Counts(cfg: Config, s: Pool) {
    |s.free| + |s.held| == s.count <= cfg.capacity
  }

  /** Every tree that is not worn out is clean, and its counters tell its chunks. */
  ghost predicate AllWorn(cfg: Config, s: Pool)
    requires cfg.Valid()
  {
    forall id :: id in s.trees && |s.trees[id].log| <= CHUNKS ==>
      Worn(cfg.size, cfg.count, s.trees[id].log, s.trees[id].nodes)
  }

  ghost predicate PoolInv(cfg: Config, s: Pool)
    requires cfg.Valid()
  {
    Owned(s.trees.Keys, s.free, s.held) && Counts(cfg, s) && AllWorn(cfg, s)
  }

  lemma HeldStays(ids: set<nat>, free: seq<nat>, held: map<nat, nat>, h: nat, t: nat, id: nat) returns (g: nat)
    requires Owned(ids, free, held) && h !in held && (id == t || (id in ids && id !in free))
    ensures g in held[h := t] && held[h := t][g] == id
  {
    if id == t {
      g := h;
    } else {
      g :| g in held && held[g] == id;
    }
  }

  lemma TakeOwned(ids: set<nat>, free: seq<nat>, held: map<nat, nat>, h: nat)
    requires Owned(ids, free, held) && h !in held && free != []
    ensures Owned(ids, free[1..], held[h := free[0]])
  {
    var rest, next := free[1..], held[h := free[0]];
    assert free == [free[0]] + rest;
    forall id | id in ids && id !in rest ensures exists g :: g in next && next[g] == id {
      var g := HeldStays(ids, free, held, h, free[0], id);
    }
  }

  lemma MakeOwned(ids: set<nat>, free: seq<nat>, held: map<nat, nat>, h: nat, t: nat)
    requires Owned(ids, free, held) && h !in held && t !in ids
    ensures Owned(ids + {t}, free, held[h := t])
  {
    var next := held[h := t];
    forall id | id in ids + {t} && id !in free ensures exists g :: g in next && next[g] == id {
      var g := HeldStays(ids, free, held, h, t, id);
    }
  }

  lemma SumOwned(ids: set<nat>, free: seq<nat>, held: map<nat, nat>, h: nat)
    requires Owned(ids, free, held) && h in held
    ensures Owned(ids, free + [held[h]], held - {h})
  {
    var next := held - {h};
    forall id | id in ids && id !in free + [held[h]] ensures exists g :: g in next && next[g] == id {
      var g :| g in held && held[g] == id;
      assert g in next;
    }
  }

  lemma DropOwned(ids: set<nat>, free: seq<nat>, held: map<nat, nat>)
    requires Owned(ids, free, held) && free != []
    ensures Owned(ids - {free[0]}, free[1..], held)
  {
    assert free == [free[0]] + free[1..];
  }

  lemma OwnedKeeps(cfg: Config, s: Pool, e: Event)
    requires cfg.Valid() && Owned(s.trees.Keys, s.free, s.held) && Possible(cfg, s, e)
    ensures var s' := Next(cfg, s, e); Owned(s'.trees.Keys, s'.free, s'.held)
  {
    var s' := Next(cfg, s, e);
    match e
    case Take(h) =>
      TakeOwned(s.trees.Keys, s.free, s.held, h);
    case Make(h, id, _) =>
      MakeOwned(s.trees.Keys, s.free, s.held, h, id);
      assert s'.trees.Keys == s.trees.Keys + {id};
    case Sum(h, _, _, _, _) =>
      SumOwned(s.trees.Keys, s.free, s.held, h);
      assert s'.trees.Keys == s.trees.Keys;
    case Drop =>
      DropOwned(s.trees.Keys, s.free, s.held);
      assert s'.trees.Keys == s.trees.Keys - {s.free[0]};
  }

  lemma CountsKeeps(cfg: Config, s: Pool, e: Event)
    requires cfg.Valid() && Counts(cfg, s) && Possible(cfg, s, e)
    ensures Counts(cfg, Next(cfg, s, e))
  {
    if e.Sum? {
      assert (s.held - {e.h}).Keys == s.held.Keys - {e.h};
    }
  }

  /** A sum on a tree that is not worn out gives the reference hash. */
  lemma SumIsReference(cfg: Config, s: Pool, e: Event)
    requires cfg.Valid() && AllWorn(cfg, s) && Possible(cfg, s, e) && e.Sum? && |s.trees[s.held[e.h]].log| < CHUNKS
    ensures e.r == Reference(cfg.H, cfg.size, cfg.count, e.d)
    ensures Worn(cfg.size, cfg.count, s.trees[s.held[e.h]].log + [e.d], e.nodes)
  {
    var t := s.trees[s.held[e.h]];
    HashOnce(cfg.H, cfg.size, cfg.count, t.log, e.d, t.nodes, e.acts, e.r, e.nodes);
  }

  lemma WornKeeps(cfg: Config, s: Pool, e: Event)
    requires cfg.Valid() && AllWorn(cfg, s) && Possible(cfg, s, e)
    ensures AllWorn(cfg, Next(cfg, s, e))
  {
    if e.Sum? && |s.trees[s.held[e.h]].log| < CHUNKS {
      SumIsReference(cfg, s, e);
    }
  }

  /** A run of the pool: each event possible in the state before it. */
  ghost predicate IsHistory(cfg: Config, states: seq<Pool>, events: seq<Event>)
    requires cfg.Valid()
  {
    && |states| == |events| + 1
    && states[0] == Pool(map[], [], map[], 0)
    && forall i :: 0 <= i < |events| ==> Possible(cfg, states[i], events[i]) && states[i + 1] == Next(cfg, states[i], events[i])
  }

  lemma {:induction false} HistoryKeeps(cfg: Config, states: seq<Pool>, events: seq<Event>, i: nat)
    requires cfg.Valid() && IsHistory(cfg, states, events) && i < |states|
    ensures PoolInv(cfg, states[i])
  {
    if i > 0 {
      HistoryKeeps(cfg, states, events, i - 1);
      OwnedKeeps(cfg, states[i - 1], events[i - 1]);
      CountsKeeps(cfg, states[i - 1], events[i - 1]);
      WornKeeps(cfg, states[i - 1], events[i - 1]);
    }
  }

  /**
   Every history of the pool: every sum on a tree with fewer than 2^30 chunks behind it
   is the reference hash; no two hashers ever hold the same tree; and a reset has to
   wait only while all trees the pool may have are held.
   */
  lemma EveryHistory(cfg: Config, states: seq<Pool>, events: seq<Event>, i: nat)
    requires cfg.Valid() && IsHistory(cfg, states, events) && i < |events|
    ensures var s, e := states[i], events[i];
            && (e.Sum? && |s.trees[s.held[e.h]].log| < CHUNKS ==> e.r == Reference(cfg.H, cfg.size, cfg.count, e.d))
            && (forall h, g :: h in s.held && g in s.held && h != g ==> s.held[h] != s.held[g])
            && (forall h :: h in s.held ==> s.held[h] !in s.free)
            && (s.free == [] && s.count == cfg.capacity ==> |s.held| == cfg.capacity)
  {
    HistoryKeeps(cfg, states, events, i);
    if events[i].Sum? && |states[i].trees[states[i].held[events[i].h]].log| < CHUNKS {
      SumIsReference(cfg, states[i], events[i]);
    }
  }

  /**
   The condition on a tree is exact: after up to 2^30 chunks the next one is hashed
   rightly for every base hash and schedule, unless all of them were longer than two segments.
   */
  lemma TreeExact(cfg: Config, states: seq<Pool>, events: seq<Event>, i: nat, id: nat, d: Bytes)
    requires cfg.Valid() && IsHistory(cfg, states, events) && i < |states| && |d| <= cfg.count * cfg.size
    requires id in states[i].trees && |states[i].trees[id].log| <= CHUNKS
    ensures var t := states[i].trees[id];
            AlwaysReference(cfg.size, cfg.count, d, t.nodes) <==>
            !(|t.log| == CHUNKS && |d| > 2 * cfg.size && forall j :: 0 <= j < |t.log| ==> |t.log[j]| > 2 * cfg.size)
  {
    HistoryKeeps(cfg, states, events, i);
    var t := states[i].trees[id];
    WornOut(cfg.size, cfg.count, t.log, t.nodes, d);
    AlwaysExact(cfg.size, cfg.count, d, t.nodes);
  }
}
