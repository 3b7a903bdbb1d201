/**
 The request distributor (common/bloombits/matcher.go): section requests queue up per
 bit, bits are handed to retrievers, retrievers drain part of a bit's queue and deliver.

 The state machine includes the retrievers with an outstanding allocation: they hold a bit
 whose queue they have not drained yet, or the sections they drained and have not
 delivered. The run is the one before shutdown.
 */
module Distributor {

  const MAX_UINT64 := 0xffff_ffff_ffff_ffff

  /** The distributor's own variables. `listening` is `retrievers != nil`. */
  datatype Dist = Dist(requests: map<nat, seq<nat>>, unallocs: set<nat>, listening: bool, allocs: int)

  /** An outstanding allocation. */
  datatype Holder = Holding(bit: nat) | Fetching(bit: nat, sections: seq<nat>)

  /** The distributor, its outstanding allocations, and the ledger of what was asked for and served, per bit. */
  datatype World = World(d: Dist, holders: seq<Holder>, requested: map<nat, multiset<nat>>, delivered: map<nat, multiset<nat>>)

  /** The section of a block. */
  function SectionNumber(block: nat, size: nat): nat
    requires 0 < size
  {
    block / size
  }

  /** The section numbers that occur: sections of whole bytes, blocks numbered in 64 bits. */
  ghost predicate IsSection(section: nat) {
    exists block: nat, size: nat ::
      0 < size && size % 8 == 0 && block <= MAX_UINT64 && section == SectionNumber(block, size)
  }

  lemma QuotientSmall(block: nat, size: nat, q: nat)
    requires size >= 2 && q == block / size
    ensures 2 * q <= block
  {
    assert block == size * q + block % size;
    assert (size - 2) * q >= 0;
  }

  /** No section has the number from which the search for the lowest section starts. */
  lemma SectionSmall(section: nat)
    requires IsSection(section)
    ensures section < MAX_UINT64
  {
    var block: nat, size: nat :|
      0 < size && size % 8 == 0 && block <= MAX_UINT64 && section == SectionNumber(block, size);
    QuotientSmall(block, size, section);
  }

  function Queue(d: Dist, bit: nat): seq<nat> {
    if bit in d.requests then d.requests[bit] else []
  }

  function Entry(m: map<nat, multiset<nat>>, bit: nat): multiset<nat> {
    if bit in m then m[bit] else multiset{}
  }

  // ---------------------------------------------------------------- sorted queues

  ghost predicate Sorted(q: seq<nat>) {
    forall i, j :: 0 <= i < j < |q| ==> q[i] <= q[j]
  }

  /** The first index whose section is not below `s`. */
  function Search(q: seq<nat>, s: nat): (i: nat)
    ensures i <= |q|
    ensures forall k :: 0 <= k < i ==> q[k] < s
    ensures i < |q| ==> q[i] >= s
  {
    if |q| == 0 || q[0] >= s then 0 else 1 + Search(q[1..], s)
  }

  function Insert(q: seq<nat>, s: nat): seq<nat> {
    var i := Search(q, s);
    q[..i] + [s] + q[i..]
  }

  function InsertAll(q: seq<nat>, ss: seq<nat>): seq<nat>
    decreases |ss|
  {
    if |ss| == 0 then q else Insert(InsertAll(q, ss[..|ss| - 1]), ss[|ss| - 1])
  }

  lemma InsertKeeps(q: seq<nat>, s: nat)
    requires Sorted(q)
    ensures Sorted(Insert(q, s)) && multiset(Insert(q, s)) == multiset(q) + multiset{s}
  {
    var i := Search(q, s);
    assert q == q[..i] + q[i..];
  }

  lemma {:induction false} InsertAllKeeps(q: seq<nat>, ss: seq<nat>)
    requires Sorted(q)
    ensures Sorted(InsertAll(q, ss)) && multiset(InsertAll(q, ss)) == multiset(q) + multiset(ss)
    decreases |ss|
  {
    if |ss| > 0 {
      var n := |ss| - 1;
      var p := InsertAll(q, ss[..n]);
      InsertAllKeeps(q, ss[..n]);
      InsertKeeps(p, ss[n]);
      Snoc(ss);
      MsAssoc(multiset(q), multiset(ss[..n]), multiset{ss[n]});
      assert InsertAll(q, ss) == Insert(p, ss[n]);
    }
  }

  lemma MsAssoc(a: multiset<nat>, b: multiset<nat>, c: multiset<nat>)
    ensures (a + b) + c == a + (b + c)
    ensures (a + c) + b == (a + b) + c
  {
  }

  lemma Added(a: seq<nat>, x: nat)
    ensures multiset(a + [x]) == multiset(a) + multiset{x}
  {
  }

  lemma Snoc(ss: seq<nat>)
    requires |ss| > 0
    ensures multiset(ss) == multiset(ss[..|ss| - 1]) + multiset{ss[|ss| - 1]}
  {
    assert ss == ss[..|ss| - 1] + [ss[|ss| - 1]];
  }

  lemma {:induction false} SearchUnique(q: seq<nat>, s: nat, i: nat)
    requires i <= |q| && (forall k :: 0 <= k < i ==> q[k] < s) && (i < |q| ==> q[i] >= s)
    ensures i == Search(q, s)
  {
    if i > 0 {
      SearchUnique(q[1..], s, i - 1);
    }
  }

  /** Binary search finds the same place in a sorted queue. */
  method BinarySearch(q: seq<nat>, s: nat) returns (i: nat)
    requires Sorted(q)
    ensures i == Search(q, s)
  {
    i := 0;
    var j := |q|;
    while i < j
      invariant i <= j <= |q|
      invariant forall k :: 0 <= k < i ==> q[k] < s
      invariant forall k :: j <= k < |q| ==> q[k] >= s
    {
      var h := (i + j) / 2;
      if q[h] >= s {
        j := h;
      } else {
        i := h + 1;
      }
    }
    SearchUnique(q, s, i);
  }

  // -------------------------------------------------------------- the state machine

  /** `assign`: a waiting retriever gets the bit at once, or the bit waits for one. */
  function Assign(w: World, bit: nat, waiting: bool): World {
    w.(d := AssignBit(w.d, bit, waiting), holders := if waiting then w.holders + [Holding(bit)] else w.holders)
  }

  function AssignBit(d: Dist, bit: nat, waiting: bool): Dist {
    if waiting then d.(allocs := d.allocs + 1) else d.(listening := true, unallocs := d.unallocs + {bit})
  }

  datatype Action =
    | Request(bit: nat, section: nat, waiting: bool)
    | Arrive(bit: nat)
    | Allocate(k: nat, want: nat, waiting: bool)
    | Deliver(k: nat, full: seq<bool>, waiting: bool)

  /** Some unallocated bit has a first section below the starting value of the search. */
  ghost predicate Pickable(d: Dist) {
    exists b :: b in d.unallocs && b in d.requests && |d.requests[b]| > 0 && d.requests[b][0] < MAX_UINT64
  }

  /** An unallocated bit whose first section is the lowest of all. */
  ghost predicate Lowest(d: Dist, bit: nat) {
    && bit in d.unallocs && |Queue(d, bit)| > 0
    && forall b :: b in d.unallocs && |Queue(d, b)| > 0 ==> Queue(d, bit)[0] <= Queue(d, b)[0]
  }

  /** The sections whose vectors came back, or the ones that came back empty. */
  function Sieve(sections: seq<nat>, full: seq<bool>, keep: bool): seq<nat>
    requires |full| <= |sections|
    decreases |full|
  {
    if |full| == 0 then []
    else var n := |full| - 1;
         var rest := Sieve(sections, full[..n], keep);
         if full[n] == keep then rest + [sections[n]] else rest
  }

  lemma {:induction false} SieveSplits(sections: seq<nat>, full: seq<bool>)
    requires |full| <= |sections|
    ensures multiset(Sieve(sections, full, true)) + multiset(Sieve(sections, full, false)) == multiset(sections[..|full|])
    decreases |full|
  {
    if |full| > 0 {
      var n := |full| - 1;
      SieveSplits(sections, full[..n]);
      assert sections[..n + 1] == sections[..n] + [sections[n]];
      Added(sections[..n], sections[n]);
      SieveStep(Sieve(sections, full[..n], true), Sieve(sections, full[..n], false), sections[n]);
    }
  }

  lemma SieveStep(good: seq<nat>, missing: seq<nat>, x: nat)
    ensures multiset(good + [x]) + multiset(missing) == (multiset(good) + multiset(missing)) + multiset{x}
    ensures multiset(good) + multiset(missing + [x]) == (multiset(good) + multiset(missing)) + multiset{x}
  {
    Added(good, x);
    Added(missing, x);
    MsAssoc(multiset(good), multiset(missing), multiset{x});
  }

  /** What the search over the unallocated bits may come up with. */
  ghost predicate Picks(d: Dist, bit: nat) {
    if Pickable(d) then Lowest(d, bit) else bit == 0
  }

  ghost predicate Enabled(w: World, a: Action) {
    match a
    case Request(bit, section, _) => IsSection(section)
    case Arrive(bit) => w.d.listening && Picks(w.d, bit)
    case Allocate(k, want, _) => k < |w.holders| && w.holders[k].Holding?
    case Deliver(k, full, _) => k < |w.holders| && w.holders[k].Fetching? && |full| == |w.holders[k].sections|
  }

  function SetQueue(d: Dist, bit: nat, q: seq<nat>): Dist {
    d.(requests := d.requests[bit := q])
  }

  function RequestStep(w: World, bit: nat, section: nat, waiting: bool): World {
    var queue := Queue(w.d, bit);
    var w1 := w.(d := SetQueue(w.d, bit, Insert(queue, section)),
                 requested := w.requested[bit := Entry(w.requested, bit) + multiset{section}]);
    if |queue| == 0 then Assign(w1, bit, waiting) else w1
  }

  function ArriveStep(w: World, bit: nat): World {
    var left := w.d.unallocs - {bit};
    w.(d := w.d.(unallocs := left, listening := left != {}, allocs := w.d.allocs + 1),
       holders := w.holders + [Holding(bit)])
  }

  function AllocateStep(w: World, k: nat, want: nat, waiting: bool): World
    requires k < |w.holders| && w.holders[k].Holding?
  {
    var bit := w.holders[k].bit;
    var queue := Queue(w.d, bit);
    if want >= |queue| then
      w.(d := w.d.(requests := w.d.requests - {bit}), holders := w.holders[k := Fetching(bit, queue)])
    else
      Assign(w.(d := SetQueue(w.d, bit, queue[want..]), holders := w.holders[k := Fetching(bit, queue[..want])]), bit, waiting)
  }

  /** The world after a delivery, before any reassignment. */
  function Settled(w: World, k: nat, full: seq<bool>): World
    requires k < |w.holders| && w.holders[k].Fetching? && |full| <= |w.holders[k].sections|
  {
    var bit := w.holders[k].bit;
    var good := Sieve(w.holders[k].sections, full, true);
    var missing := Sieve(w.holders[k].sections, full, false);
    var d1 := w.d.(allocs := w.d.allocs - 1);
    w.(d := if |missing| == 0 then d1 else SetQueue(d1, bit, InsertAll(Queue(w.d, bit), missing)),
       holders := w.holders[..k] + w.holders[k + 1..],
       delivered := w.delivered[bit := Entry(w.delivered, bit) + multiset(good)])
  }

  function DeliverStep(w: World, k: nat, full: seq<bool>, waiting: bool): World
    requires k < |w.holders| && w.holders[k].Fetching? && |full| <= |w.holders[k].sections|
  {
    var bit := w.holders[k].bit;
    var w1 := Settled(w, k, full);
    if |Queue(w.d, bit)| == 0 && |Sieve(w.holders[k].sections, full, false)| > 0 then Assign(w1, bit, waiting) else w1
  }

  ghost function Step(w: World, a: Action): World
    requires Enabled(w, a)
  {
    match a
    case Request(bit, section, waiting) => RequestStep(w, bit, section, waiting)
    case Arrive(bit) => ArriveStep(w, bit)
    case Allocate(k, want, waiting) => AllocateStep(w, k, want, waiting)
    case Deliver(k, full, waiting) => DeliverStep(w, k, full, waiting)
  }

  // ---------------------------------------------------------------- the invariant

  /** How many retrievers hold a bit they have not drained. */
  function Undrained(hs: seq<Holder>, bit: nat): nat {
    if |hs| == 0 then 0 else (if hs[0] == Holding(bit) then 1 else 0) + Undrained(hs[1..], bit)
  }

  function Carried(h: Holder, bit: nat): multiset<nat> {
    if h.Fetching? && h.bit == bit then multiset(h.sections) else multiset{}
  }

  /** The sections of a bit that retrievers are fetching. */
  function InFlight(hs: seq<Holder>, bit: nat): multiset<nat> {
    if |hs| == 0 then multiset{} else Carried(hs[0], bit) + InFlight(hs[1..], bit)
  }

  /** Every requested section of a bit is queued, in flight or delivered. */
  ghost predicate Conserved(w: World, bit: nat) {
    Entry(w.requested, bit) == multiset(Queue(w.d, bit)) + InFlight(w.holders, bit) + Entry(w.delivered, bit)
  }

  /** A bit with work is waiting for a retriever or held by exactly one; one without work is neither. */
  ghost predicate Tracked(w: World, bit: nat) {
    (if bit in w.d.unallocs then 1 else 0) + Undrained(w.holders, bit) == if bit in w.d.requests then 1 else 0
  }

  ghost predicate GoodQueue(q: seq<nat>) {
    |q| > 0 && Sorted(q) && forall i :: 0 <= i < |q| ==> q[i] < MAX_UINT64
  }

  ghost predicate QueueOk(requests: map<nat, seq<nat>>, bit: nat) {
    bit in requests ==> GoodQueue(requests[bit])
  }

  ghost predicate SmallSections(h: Holder) {
    h.Fetching? ==> forall i :: 0 <= i < |h.sections| ==> h.sections[i] < MAX_UINT64
  }

  ghost predicate AllQueues(requests: map<nat, seq<nat>>) {
    forall bit :: QueueOk(requests, bit)
  }

  ghost predicate AllTracked(w: World) {
    forall bit :: Tracked(w, bit)
  }

  ghost predicate AllConserved(w: World) {
    forall bit :: Conserved(w, bit)
  }

  ghost predicate AllSmall(hs: seq<Holder>) {
    forall k :: 0 <= k < |hs| ==> SmallSections(hs[k])
  }

  ghost predicate Counts(w: World) {
    (w.d.listening <==> w.d.unallocs != {}) && w.d.allocs == |w.holders|
  }

  ghost predicate Inv(w: World) {
    AllQueues(w.d.requests) && AllTracked(w) && AllConserved(w) && AllSmall(w.holders) && Counts(w)
  }

  // ------------------------------------------------------------- outstanding allocations

  lemma {:induction false} HoldersAppend(a: seq<Holder>, b: seq<Holder>, bit: nat)
    ensures Undrained(a + b, bit) == Undrained(a, bit) + Undrained(b, bit)
    ensures InFlight(a + b, bit) == InFlight(a, bit) + InFlight(b, bit)
  {
    if |a| == 0 {
      assert a + b == b;
    } else {
      assert (a + b)[1..] == a[1..] + b;
      HoldersAppend(a[1..], b, bit);
    }
  }

  function One(h: Holder, bit: nat): nat {
    if h == Holding(bit) then 1 else 0
  }

  lemma HoldersOne(h: Holder, bit: nat)
    ensures Undrained([h], bit) == One(h, bit) && InFlight([h], bit) == Carried(h, bit)
  {
    assert [h][1..] == [];
  }

  lemma HoldersSplit(hs: seq<Holder>, k: nat, bit: nat)
    requires k < |hs|
    ensures Undrained(hs, bit) == Undrained(hs[..k], bit) + One(hs[k], bit) + Undrained(hs[k + 1..], bit)
    ensures InFlight(hs, bit) == InFlight(hs[..k], bit) + Carried(hs[k], bit) + InFlight(hs[k + 1..], bit)
  {
    assert hs == hs[..k] + ([hs[k]] + hs[k + 1..]);
    HoldersAppend(hs[..k], [hs[k]] + hs[k + 1..], bit);
    HoldersAppend([hs[k]], hs[k + 1..], bit);
    HoldersOne(hs[k], bit);
  }

  /** A holder changed. */
  lemma HoldersUpdate(hs: seq<Holder>, k: nat, h: Holder, bit: nat)
    requires k < |hs|
    ensures Undrained(hs[k := h], bit) + One(hs[k], bit) == Undrained(hs, bit) + One(h, bit)
    ensures InFlight(hs[k := h], bit) + Carried(hs[k], bit) == InFlight(hs, bit) + Carried(h, bit)
  {
    HoldersSplit(hs, k, bit);
    HoldersSplit(hs[k := h], k, bit);
    assert hs[k := h][..k] == hs[..k] && hs[k := h][k + 1..] == hs[k + 1..];
  }

  /** A holder is done. */
  lemma HoldersRemove(hs: seq<Holder>, k: nat, bit: nat)
    requires k < |hs|
    ensures Undrained(hs[..k] + hs[k + 1..], bit) + One(hs[k], bit) == Undrained(hs, bit)
    ensures InFlight(hs[..k] + hs[k + 1..], bit) + Carried(hs[k], bit) == InFlight(hs, bit)
  {
    HoldersSplit(hs, k, bit);
    HoldersAppend(hs[..k], hs[k + 1..], bit);
  }

  /** A retriever got a bit. */
  lemma HoldersAdd(hs: seq<Holder>, bit: nat, b: nat)
    ensures Undrained(hs + [Holding(bit)], b) == Undrained(hs, b) + if b == bit then 1 else 0
    ensures InFlight(hs + [Holding(bit)], b) == InFlight(hs, b)
  {
    HoldersAppend(hs, [Holding(bit)], b);
    HoldersOne(Holding(bit), b);
  }

  // ----------------------------------------------------------- every step keeps it

  /** How many ways a bit is taken care of. */
  function Care(w: World, bit: nat): nat {
    (if bit in w.d.unallocs then 1 else 0) + Undrained(w.holders, bit)
  }

  /** Every bit is tracked, but one has work and nobody takes care of it yet. */
  ghost predicate TrackedBut(w: World, due: nat) {
    && due in w.d.requests && Care(w, due) == 0
    && forall bit :: bit != due ==> Tracked(w, bit)
  }

  ghost predicate InvBut(w: World, due: nat) {
    AllQueues(w.d.requests) && TrackedBut(w, due) && AllConserved(w) && AllSmall(w.holders) && Counts(w)
  }

  lemma AssignTracks(w: World, due: nat, waiting: bool)
    requires TrackedBut(w, due)
    ensures AllTracked(Assign(w, due, waiting))
  {
    var w' := Assign(w, due, waiting);
    forall bit
      ensures Tracked(w', bit)
    {
      HoldersAdd(w.holders, due, bit);
      assert bit != due ==> Tracked(w, bit);
    }
  }

  /** Conservation only looks at the queue, the sections in flight and the ledger. */
  lemma SameConserved(w: World, w': World)
    requires AllConserved(w)
    requires w'.d.requests == w.d.requests && w'.requested == w.requested && w'.delivered == w.delivered
    requires forall bit :: InFlight(w'.holders, bit) == InFlight(w.holders, bit)
    ensures AllConserved(w')
  {
    forall bit
      ensures Conserved(w', bit)
    {
      assert Conserved(w, bit);
    }
  }

  lemma AssignConserves(w: World, due: nat, waiting: bool)
    requires AllConserved(w)
    ensures AllConserved(Assign(w, due, waiting))
  {
    forall bit
      ensures InFlight(Assign(w, due, waiting).holders, bit) == InFlight(w.holders, bit)
    {
      HoldersAdd(w.holders, due, bit);
    }
    SameConserved(w, Assign(w, due, waiting));
  }

  lemma AssignKeeps(w: World, due: nat, waiting: bool)
    requires InvBut(w, due)
    ensures Inv(Assign(w, due, waiting))
  {
    AssignTracks(w, due, waiting);
    AssignConserves(w, due, waiting);
  }

  // Requests.

  /** Work queued for a bit leaves the other bits alone. */
  lemma QueuesUpdate(d: Dist, bit: nat, q: seq<nat>)
    requires AllQueues(d.requests) && GoodQueue(q)
    ensures AllQueues(SetQueue(d, bit, q).requests)
  {
    forall b
      ensures QueueOk(SetQueue(d, bit, q).requests, b)
    {
      assert QueueOk(d.requests, b);
    }
  }

  lemma QueueTracks(w: World, bit: nat, q: seq<nat>)
    requires AllTracked(w) && AllQueues(w.d.requests)
    ensures var w' := w.(d := SetQueue(w.d, bit, q));
            if |Queue(w.d, bit)| == 0 then TrackedBut(w', bit) else AllTracked(w')
  {
    var w' := w.(d := SetQueue(w.d, bit, q));
    assert QueueOk(w.d.requests, bit) && Tracked(w, bit);
    forall b | b != bit || |Queue(w.d, bit)| > 0
      ensures Tracked(w', b)
    {
      assert Tracked(w, b);
    }
  }

  /** Adding sections to a queue and to the ledger. */
  lemma QueueConserves(w: World, w': World, bit: nat, q: seq<nat>)
    requires AllConserved(w) && w'.d.requests == w.d.requests[bit := q] && Conserved(w', bit)
    requires forall b :: b != bit ==>
      && InFlight(w'.holders, b) == InFlight(w.holders, b)
      && Entry(w'.requested, b) == Entry(w.requested, b)
      && Entry(w'.delivered, b) == Entry(w.delivered, b)
    ensures AllConserved(w')
  {
    forall b
      ensures Conserved(w', b)
    {
      assert Conserved(w, b);
    }
  }

  lemma InsertGood(d: Dist, bit: nat, section: nat)
    requires QueueOk(d.requests, bit) && section < MAX_UINT64
    ensures var q := Insert(Queue(d, bit), section);
            GoodQueue(q) && multiset(q) == multiset(Queue(d, bit)) + multiset{section}
  {
    InsertKeeps(Queue(d, bit), section);
  }

  lemma MsAdd(r: multiset<nat>, q: multiset<nat>, f: multiset<nat>, d: multiset<nat>, x: multiset<nat>)
    requires r == q + f + d
    ensures r + x == (q + x) + f + d
  {
  }

  lemma RequestKeeps(w: World, bit: nat, section: nat, waiting: bool)
    requires Inv(w) && section < MAX_UINT64
    ensures Inv(RequestStep(w, bit, section, waiting))
  {
    var queue := Queue(w.d, bit);
    var q := Insert(queue, section);
    var w1 := w.(d := SetQueue(w.d, bit, q), requested := w.requested[bit := Entry(w.requested, bit) + multiset{section}]);
    assert QueueOk(w.d.requests, bit) && Conserved(w, bit);
    InsertGood(w.d, bit, section);
    QueuesUpdate(w.d, bit, q);
    MsAdd(Entry(w.requested, bit), multiset(queue), InFlight(w.holders, bit), Entry(w.delivered, bit), multiset{section});
    QueueConserves(w, w1, bit, q);
    QueueTracks(w, bit, q);
    SameTracked(w.(d := SetQueue(w.d, bit, q)), w1, bit);
    if |queue| == 0 {
      AssignKeeps(w1, bit, waiting);
    }
  }

  lemma SameTracked(w: World, w': World, due: nat)
    requires w'.d.requests == w.d.requests && w'.d.unallocs == w.d.unallocs && w'.holders == w.holders
    ensures AllTracked(w) ==> AllTracked(w')
    ensures TrackedBut(w, due) ==> TrackedBut(w', due)
  {
    forall bit
      ensures Tracked(w', bit) <==> Tracked(w, bit)
    {
    }
  }

  // A retriever arrives.

  /** While the distributor listens, what it picks is an unallocated bit with the lowest first section. */
  lemma ListeningPicks(w: World, bit: nat)
    requires Inv(w) && w.d.listening && Picks(w.d, bit)
    ensures bit in w.d.unallocs && Lowest(w.d, bit)
  {
    var b :| b in w.d.unallocs;
    assert Tracked(w, b) && QueueOk(w.d.requests, b);
    assert Pickable(w.d);
  }

  lemma ArriveTracks(w: World, bit: nat)
    requires AllTracked(w) && bit in w.d.unallocs
    ensures AllTracked(ArriveStep(w, bit))
  {
    var w' := ArriveStep(w, bit);
    forall b
      ensures Tracked(w', b)
    {
      HoldersAdd(w.holders, bit, b);
      assert Tracked(w, b);
    }
  }

  lemma ArriveKeeps(w: World, bit: nat)
    requires Inv(w) && w.d.listening && Picks(w.d, bit)
    ensures Inv(ArriveStep(w, bit))
  {
    ListeningPicks(w, bit);
    ArriveTracks(w, bit);
    forall b
      ensures InFlight(ArriveStep(w, bit).holders, b) == InFlight(w.holders, b)
    {
      HoldersAdd(w.holders, bit, b);
    }
    SameConserved(w, ArriveStep(w, bit));
  }

  // A retriever drains.

  /** A holder of an undrained bit is the only one taking care of it, and there is work. */
  lemma HolderHasWork(w: World, k: nat)
    requires Inv(w) && k < |w.holders| && w.holders[k].Holding?
    ensures var bit := w.holders[k].bit;
            && bit in w.d.requests && |Queue(w.d, bit)| > 0
            && bit !in w.d.unallocs && Undrained(w.holders, bit) == 1
  {
    var bit := w.holders[k].bit;
    HoldersSplit(w.holders, k, bit);
    assert Tracked(w, bit) && QueueOk(w.d.requests, bit);
  }

  /** The holder's bit now has sections in flight and nobody holding it. */
  lemma HolderDrains(hs: seq<Holder>, k: nat, taken: seq<nat>, b: nat)
    requires k < |hs| && hs[k].Holding?
    ensures var bit := hs[k].bit;
            var hs' := hs[k := Fetching(bit, taken)];
            && Undrained(hs, b) == Undrained(hs', b) + (if b == bit then 1 else 0)
            && InFlight(hs', b) == InFlight(hs, b) + if b == bit then multiset(taken) else multiset{}
  {
    HoldersUpdate(hs, k, Fetching(hs[k].bit, taken), b);
  }

  lemma MsMove(r: multiset<nat>, q: multiset<nat>, q': multiset<nat>, x: multiset<nat>, f: multiset<nat>, d: multiset<nat>)
    requires r == q + f + d && q == q' + x
    ensures r == q' + (f + x) + d
  {
  }

  /** The world after a holder took a prefix of its queue, before any reassignment. */
  function Taken(w: World, k: nat, n: nat): World
    requires k < |w.holders| && w.holders[k].Holding? && n <= |Queue(w.d, w.holders[k].bit)|
  {
    var bit := w.holders[k].bit;
    var queue := Queue(w.d, bit);
    w.(d := if n == |queue| then w.d.(requests := w.d.requests - {bit}) else SetQueue(w.d, bit, queue[n..]),
       holders := w.holders[k := Fetching(bit, queue[..n])])
  }

  lemma Cut(q: seq<nat>, n: nat)
    requires n <= |q|
    ensures multiset(q) == multiset(q[n..]) + multiset(q[..n])
  {
    assert q == q[..n] + q[n..];
  }

  /** The queue left behind, whichever way the map says so. */
  lemma TakenQueue(w: World, k: nat, n: nat, b: nat)
    requires k < |w.holders| && w.holders[k].Holding? && n <= |Queue(w.d, w.holders[k].bit)|
    ensures Queue(Taken(w, k, n).d, b) == if b == w.holders[k].bit then Queue(w.d, b)[n..] else Queue(w.d, b)
  {
  }

  lemma TakenConserved(w: World, k: nat, n: nat, b: nat)
    requires Conserved(w, b) && k < |w.holders| && w.holders[k].Holding? && n <= |Queue(w.d, w.holders[k].bit)|
    ensures Conserved(Taken(w, k, n), b)
  {
    var w' := Taken(w, k, n);
    var queue := Queue(w.d, w.holders[k].bit);
    var r, q, f, d := Entry(w.requested, b), multiset(Queue(w.d, b)), InFlight(w.holders, b), Entry(w.delivered, b);
    TakenQueue(w, k, n, b);
    HolderDrains(w.holders, k, queue[..n], b);
    if b == w.holders[k].bit {
      Cut(queue, n);
      MsMove(r, q, multiset(queue[n..]), multiset(queue[..n]), f, d);
      assert InFlight(w'.holders, b) == f + multiset(queue[..n]);
    } else {
      assert InFlight(w'.holders, b) == f;
    }
  }

  lemma TakenConserves(w: World, k: nat, n: nat)
    requires AllConserved(w) && k < |w.holders| && w.holders[k].Holding? && n <= |Queue(w.d, w.holders[k].bit)|
    ensures AllConserved(Taken(w, k, n))
  {
    forall b
      ensures Conserved(Taken(w, k, n), b)
    {
      assert Conserved(w, b);
      TakenConserved(w, k, n, b);
    }
  }

  lemma TakenTracks(w: World, k: nat, n: nat)
    requires Inv(w) && k < |w.holders| && w.holders[k].Holding? && n <= |Queue(w.d, w.holders[k].bit)|
    ensures if n == |Queue(w.d, w.holders[k].bit)| then AllTracked(Taken(w, k, n)) else TrackedBut(Taken(w, k, n), w.holders[k].bit)
  {
    var bit := w.holders[k].bit;
    var queue := Queue(w.d, bit);
    var w' := Taken(w, k, n);
    HolderHasWork(w, k);
    HolderDrains(w.holders, k, queue[..n], bit);
    forall b | b != bit || n == |queue|
      ensures Tracked(w', b)
    {
      assert Tracked(w, b);
      HolderDrains(w.holders, k, queue[..n], b);
    }
  }

  lemma TakenQueues(w: World, k: nat, n: nat)
    requires AllQueues(w.d.requests) && AllSmall(w.holders)
    requires k < |w.holders| && w.holders[k].Holding? && n <= |Queue(w.d, w.holders[k].bit)|
    ensures AllQueues(Taken(w, k, n).d.requests) && AllSmall(Taken(w, k, n).holders)
  {
    var bit := w.holders[k].bit;
    var w' := Taken(w, k, n);
    assert QueueOk(w.d.requests, bit);
    forall b
      ensures QueueOk(w'.d.requests, b)
    {
      assert QueueOk(w.d.requests, b);
    }
  }

  lemma AllocateKeeps(w: World, k: nat, want: nat, waiting: bool)
    requires Inv(w) && k < |w.holders| && w.holders[k].Holding?
    ensures Inv(AllocateStep(w, k, want, waiting))
  {
    var bit := w.holders[k].bit;
    var queue := Queue(w.d, bit);
    var n := if want >= |queue| then |queue| else want;
    TakenConserves(w, k, n);
    TakenTracks(w, k, n);
    TakenQueues(w, k, n);
    if want < |queue| {
      AssignKeeps(Taken(w, k, n), bit, waiting);
    } else {
      assert queue[..n] == queue;
    }
  }

  // A retriever delivers.

  lemma MsDeliver(r: multiset<nat>, q: multiset<nat>, f: multiset<nat>, d: multiset<nat>, f': multiset<nat>,
                  good: multiset<nat>, missing: multiset<nat>, lost: multiset<nat>)
    requires r == q + f + d && f == f' + (good + missing + lost)
    ensures r == (q + missing) + f' + (d + good) + lost
  {
  }

  lemma SettledQueue(w: World, k: nat, full: seq<bool>)
    requires AllQueues(w.d.requests)
    requires k < |w.holders| && w.holders[k].Fetching? && |full| <= |w.holders[k].sections|
    ensures var bit := w.holders[k].bit;
            multiset(Queue(Settled(w, k, full).d, bit))
            == multiset(Queue(w.d, bit)) + multiset(Sieve(w.holders[k].sections, full, false))
  {
    var bit := w.holders[k].bit;
    assert QueueOk(w.d.requests, bit);
    InsertAllKeeps(Queue(w.d, bit), Sieve(w.holders[k].sections, full, false));
  }

  /** Of a delivered task, what came back is delivered, what came back empty is queued, and what did not come back is lost. */
  lemma SettledAccounts(w: World, k: nat, full: seq<bool>)
    requires AllQueues(w.d.requests)
    requires k < |w.holders| && w.holders[k].Fetching? && |full| <= |w.holders[k].sections|
    requires Conserved(w, w.holders[k].bit)
    ensures var w' := Settled(w, k, full);
            var b := w.holders[k].bit;
            Entry(w'.requested, b) == multiset(Queue(w'.d, b)) + InFlight(w'.holders, b) + Entry(w'.delivered, b)
                                      + multiset(w.holders[k].sections[|full|..])
  {
    var w' := Settled(w, k, full);
    var h := w.holders[k];
    var b := h.bit;
    SettledQueue(w, k, full);
    SieveAll(h.sections, full);
    HoldersRemove(w.holders, k, b);
    MsDeliver(Entry(w.requested, b), multiset(Queue(w.d, b)), InFlight(w.holders, b), Entry(w.delivered, b),
              InFlight(w'.holders, b), multiset(Sieve(h.sections, full, true)), multiset(Sieve(h.sections, full, false)),
              multiset(h.sections[|full|..]));
    assert Entry(w'.delivered, b) == Entry(w.delivered, b) + multiset(Sieve(h.sections, full, true));
  }

  lemma SieveAll(sections: seq<nat>, full: seq<bool>)
    requires |full| <= |sections|
    ensures multiset(sections) == multiset(Sieve(sections, full, true)) + multiset(Sieve(sections, full, false))
                                  + multiset(sections[|full|..])
  {
    SieveSplits(sections, full);
    Cut(sections, |full|);
  }

  lemma SettledOther(w: World, k: nat, full: seq<bool>, b: nat)
    requires k < |w.holders| && w.holders[k].Fetching? && |full| <= |w.holders[k].sections|
    requires Conserved(w, b) && b != w.holders[k].bit
    ensures Conserved(Settled(w, k, full), b)
  {
    HoldersRemove(w.holders, k, b);
  }

  lemma SettledConserves(w: World, k: nat, full: seq<bool>)
    requires AllQueues(w.d.requests) && AllConserved(w)
    requires k < |w.holders| && w.holders[k].Fetching? && |full| == |w.holders[k].sections|
    ensures AllConserved(Settled(w, k, full))
  {
    forall b
      ensures Conserved(Settled(w, k, full), b)
    {
      assert Conserved(w, b);
      if b == w.holders[k].bit {
        SettledAccounts(w, k, full);
        assert w.holders[k].sections[|full|..] == [];
      } else {
        SettledOther(w, k, full, b);
      }
    }
  }

  lemma {:induction false} SieveSmall(sections: seq<nat>, full: seq<bool>, keep: bool)
    requires |full| <= |sections| && forall i :: 0 <= i < |sections| ==> sections[i] < MAX_UINT64
    ensures forall i :: 0 <= i < |Sieve(sections, full, keep)| ==> Sieve(sections, full, keep)[i] < MAX_UINT64
    decreases |full|
  {
    if |full| > 0 {
      SieveSmall(sections, full[..|full| - 1], keep);
    }
  }

  lemma {:induction false} InsertAllSmall(q: seq<nat>, ss: seq<nat>)
    requires forall i :: 0 <= i < |q| ==> q[i] < MAX_UINT64
    requires forall i :: 0 <= i < |ss| ==> ss[i] < MAX_UINT64
    ensures forall i :: 0 <= i < |InsertAll(q, ss)| ==> InsertAll(q, ss)[i] < MAX_UINT64
    decreases |ss|
  {
    if |ss| > 0 {
      InsertAllSmall(q, ss[..|ss| - 1]);
    }
  }

  lemma SettledQueues(w: World, k: nat, full: seq<bool>)
    requires AllQueues(w.d.requests) && AllSmall(w.holders)
    requires k < |w.holders| && w.holders[k].Fetching? && |full| <= |w.holders[k].sections|
    ensures AllQueues(Settled(w, k, full).d.requests) && AllSmall(Settled(w, k, full).holders)
  {
    var bit := w.holders[k].bit;
    var missing := Sieve(w.holders[k].sections, full, false);
    if |missing| > 0 {
      assert QueueOk(w.d.requests, bit) && SmallSections(w.holders[k]);
      SieveSmall(w.holders[k].sections, full, false);
      RequeueGood(Queue(w.d, bit), missing);
      QueuesUpdate(w.d.(allocs := w.d.allocs - 1), bit, InsertAll(Queue(w.d, bit), missing));
    }
  }

  lemma RequeueGood(q: seq<nat>, missing: seq<nat>)
    requires |missing| > 0 && (q == [] || GoodQueue(q))
    requires forall i :: 0 <= i < |missing| ==> missing[i] < MAX_UINT64
    ensures GoodQueue(InsertAll(q, missing))
  {
    InsertAllKeeps(q, missing);
    InsertAllSmall(q, missing);
    InsertAllLength(q, missing);
  }

  lemma SettledTracks(w: World, k: nat, full: seq<bool>)
    requires AllQueues(w.d.requests) && AllTracked(w)
    requires k < |w.holders| && w.holders[k].Fetching? && |full| <= |w.holders[k].sections|
    ensures var bit := w.holders[k].bit;
            if |Queue(w.d, bit)| == 0 && |Sieve(w.holders[k].sections, full, false)| > 0 then TrackedBut(Settled(w, k, full), bit)
            else AllTracked(Settled(w, k, full))
  {
    var bit := w.holders[k].bit;
    var w' := Settled(w, k, full);
    assert QueueOk(w.d.requests, bit) && Tracked(w, bit);
    HoldersRemove(w.holders, k, bit);
    forall b | b != bit || !(|Queue(w.d, bit)| == 0 && |Sieve(w.holders[k].sections, full, false)| > 0)
      ensures Tracked(w', b)
    {
      assert Tracked(w, b);
      HoldersRemove(w.holders, k, b);
    }
  }

  lemma DeliverKeeps(w: World, k: nat, full: seq<bool>, waiting: bool)
    requires Inv(w) && k < |w.holders| && w.holders[k].Fetching? && |full| == |w.holders[k].sections|
    ensures Inv(DeliverStep(w, k, full, waiting))
  {
    var bit := w.holders[k].bit;
    SettledConserves(w, k, full);
    SettledQueues(w, k, full);
    SettledTracks(w, k, full);
    if |Queue(w.d, bit)| == 0 && |Sieve(w.holders[k].sections, full, false)| > 0 {
      AssignKeeps(Settled(w, k, full), bit, waiting);
    }
  }

  /** Nothing is lost exactly when every retrieved section has its vector, full or empty. */
  lemma DeliverExact(w: World, k: nat, full: seq<bool>, waiting: bool)
    requires Inv(w) && k < |w.holders| && w.holders[k].Fetching? && |full| <= |w.holders[k].sections|
    ensures AllConserved(DeliverStep(w, k, full, waiting)) <==> |full| == |w.holders[k].sections|
  {
    if |full| == |w.holders[k].sections| {
      DeliverKeeps(w, k, full, waiting);
    } else {
      var bit := w.holders[k].bit;
      var w' := Settled(w, k, full);
      var w'' := DeliverStep(w, k, full, waiting);
      assert Conserved(w, bit);
      SettledAccounts(w, k, full);
      HoldersAdd(w'.holders, bit, bit);
      assert w.holders[k].sections[|full|] in multiset(w.holders[k].sections[|full|..]);
      assert !Conserved(w'', bit);
    }
  }

  // ------------------------------------------------------------------------- runs

  lemma StepKeeps(w: World, a: Action)
    requires Inv(w) && Enabled(w, a)
    ensures Inv(Step(w, a))
  {
    match a
    case Request(bit, section, waiting) =>
      SectionSmall(section);
      RequestKeeps(w, bit, section, waiting);
    case Arrive(bit) => ArriveKeeps(w, bit);
    case Allocate(k, want, waiting) => AllocateKeeps(w, k, want, waiting);
    case Deliver(k, full, waiting) => DeliverKeeps(w, k, full, waiting);
  }

  const Initial := World(Dist(map[], {}, false, 0), [], map[], map[])

  ghost predicate IsRun(w: World, run: seq<Action>)
    decreases |run|
  {
    |run| == 0 || (Enabled(w, run[0]) && IsRun(Step(w, run[0]), run[1..]))
  }

  ghost function Exec(w: World, run: seq<Action>): World
    requires IsRun(w, run)
    decreases |run|
  {
    if |run| == 0 then w else Exec(Step(w, run[0]), run[1..])
  }

  lemma {:induction false} RunKeeps(w: World, run: seq<Action>)
    requires Inv(w) && IsRun(w, run)
    ensures Inv(Exec(w, run))
    decreases |run|
  {
    if |run| > 0 {
      StepKeeps(w, run[0]);
      RunKeeps(Step(w, run[0]), run[1..]);
    }
  }

  /** For every run: nothing is lost, no bit is forgotten or served twice, and the counters agree. */
  lemma EveryRun(run: seq<Action>)
    requires IsRun(Initial, run)
    ensures Inv(Exec(Initial, run))
  {
    RunKeeps(Initial, run);
  }

  /** The search comes up with a bit of the lowest section, or with its start value. */
  lemma SearchPicks(d: Dist, bit: nat, best: nat)
    requires || (bit == 0 && best == MAX_UINT64)
             || (bit in d.unallocs && |Queue(d, bit)| > 0 && best == Queue(d, bit)[0] < MAX_UINT64)
    requires forall b :: b in d.unallocs && |Queue(d, b)| > 0 ==> best <= Queue(d, b)[0]
    ensures Picks(d, bit)
  {
    if Pickable(d) {
      var b :| b in d.unallocs && b in d.requests && |d.requests[b]| > 0 && d.requests[b][0] < MAX_UINT64;
      assert Queue(d, b) == d.requests[b];
    }
  }

  // ------------------------------------------------------------------- the event loop

  /** The variables of the distributor loop and what each event does to them. */
  class EventLoop {
    var requests: map<nat, seq<nat>>
    var unallocs: set<nat>
    var listening: bool
    var allocs: int

    ghost function View(): Dist
      reads this
    {
      Dist(requests, unallocs, listening, allocs)
    }

    constructor ()
      ensures View() == Initial.d
    {
      requests, unallocs, listening, allocs := map[], {}, false, 0;
    }

    method Offer(bit: nat, waiting: bool)
      modifies this`allocs, this`listening, this`unallocs
      ensures View() == AssignBit(old(View()), bit, waiting)
    {
      if waiting {
        allocs := allocs + 1;
      } else {
        listening := true;
        unallocs := unallocs + {bit};
      }
    }

    method OnRequest(bit: nat, section: nat, waiting: bool, ghost w: World)
      requires w.d == View() && AllQueues(requests)
      modifies this
      ensures View() == RequestStep(w, bit, section, waiting).d
    {
      var queue := if bit in requests then requests[bit] else [];
      assert QueueOk(w.d.requests, bit);
      var index := BinarySearch(queue, section);
      requests := requests[bit := queue[..index] + ([section] + queue[index..])];
      assert queue[..index] + ([section] + queue[index..]) == Insert(queue, section);
      if |queue| == 0 {
        Offer(bit, waiting);
      }
    }

    /** The bit for a newly arrived retriever: the one with the lowest first section. */
    method OnArrive(ghost w: World) returns (bit: nat)
      requires w.d == View() && Inv(w) && listening
      modifies this
      ensures Picks(w.d, bit) && Lowest(w.d, bit)
      ensures View() == ArriveStep(w, bit).d
    {
      var best := MAX_UINT64;
      bit := 0;
      var left := unallocs;
      while left != {}
        invariant left <= unallocs && View() == w.d
        invariant || (bit == 0 && best == MAX_UINT64)
                  || (bit in unallocs && |Queue(w.d, bit)| > 0 && best == Queue(w.d, bit)[0] < MAX_UINT64)
        invariant forall b :: b in unallocs - left && |Queue(w.d, b)| > 0 ==> best <= Queue(w.d, b)[0]
        decreases left
      {
        var idx :| idx in left;
        assert Tracked(w, idx) && QueueOk(w.d.requests, idx);
        if requests[idx][0] < best {
          bit, best := idx, requests[idx][0];
        }
        left := left - {idx};
      }
      assert unallocs - left == unallocs;
      SearchPicks(w.d, bit, best);
      ListeningPicks(w, bit);
      unallocs := unallocs - {bit};
      if |unallocs| == 0 {
        listening := false;
      }
      allocs := allocs + 1;
    }

    /** Hands out at most `want` sections of a bit, and reassigns what is left. */
    method OnAllocate(k: nat, want: nat, waiting: bool, ghost w: World, bit: nat) returns (sections: seq<nat>)
      requires w.d == View() && Inv(w) && k < |w.holders| && w.holders[k] == Holding(bit)
      modifies this
      ensures View() == AllocateStep(w, k, want, waiting).d
      ensures AllocateStep(w, k, want, waiting).holders[k] == Fetching(bit, sections)
    {
      HolderHasWork(w, k);
      var queue := requests[bit];
      if want >= |queue| {
        sections := queue;
        requests := requests - {bit};
      } else {
        sections := queue[..want];
        requests := requests[bit := queue[want..]];
        Offer(bit, waiting);
      }
    }
  
    /** Splits a delivery into the sections to pass on and the ones to fetch again. */
    method Split(sections: seq<nat>, bitsets: seq<seq<bv8>>)
      returns (good: seq<nat>, data: seq<seq<bv8>>, missing: seq<nat>)
      requires |bitsets| <= |sections|
      ensures good == Sieve(sections, Fullness(bitsets), true) && missing == Sieve(sections, Fullness(bitsets), false)
      ensures |data| == |good| && forall i :: 0 <= i < |data| ==> |data[i]| > 0
    {
      good, data, missing := [], [], [];
      for i := 0 to |bitsets|
        invariant good == Sieve(sections, Fullness(bitsets)[..i], true)
        invariant missing == Sieve(sections, Fullness(bitsets)[..i], false)
        invariant |data| == |good| && forall j :: 0 <= j < |data| ==> |data[j]| > 0
      {
        assert Fullness(bitsets)[..i + 1][..i] == Fullness(bitsets)[..i];
        if |bitsets[i]| == 0 {
          missing := missing + [sections[i]];
        } else {
          good := good + [sections[i]];
          data := data + [bitsets[i]];
        }
      }
      assert Fullness(bitsets)[..|bitsets|] == Fullness(bitsets);
    }

    method Requeue(start: seq<nat>, missing: seq<nat>) returns (queue: seq<nat>)
      requires Sorted(start)
      ensures queue == InsertAll(start, missing)
    {
      queue := start;
      for i := 0 to |missing|
        invariant queue == InsertAll(start, missing[..i])
      {
        InsertAllKeeps(start, missing[..i]);
        var index := BinarySearch(queue, missing[i]);
        assert missing[..i + 1][..i] == missing[..i];
        assert queue[..index] + ([missing[i]] + queue[index..]) == Insert(queue, missing[i]);
        queue := queue[..index] + ([missing[i]] + queue[index..]);
      }
      assert missing[..|missing|] == missing;
    }

    /** Passes delivered sections on and queues the empty ones again. */
    method OnDeliver(k: nat, bit: nat, sections: seq<nat>, bitsets: seq<seq<bv8>>, waiting: bool, ghost w: World)
      returns (good: seq<nat>, data: seq<seq<bv8>>)
      requires w.d == View() && AllQueues(requests) && k < |w.holders| && w.holders[k] == Fetching(bit, sections)
      requires |bitsets| <= |sections|
      modifies this
      ensures View() == DeliverStep(w, k, Fullness(bitsets), waiting).d
      ensures good == Sieve(sections, Fullness(bitsets), true)
      ensures |data| == |good| && forall i :: 0 <= i < |data| ==> |data[i]| > 0
    {
      var missing;
      good, data, missing := Split(sections, bitsets);
      allocs := allocs - 1;
      if |missing| > 0 {
        Reschedule(bit, missing, waiting);
      }
      DeliverDist(w, k, Fullness(bitsets), waiting);
    }

    /** Queues sections again, and offers the bit if it had no work. */
    method Reschedule(bit: nat, missing: seq<nat>, waiting: bool)
      requires AllQueues(requests)
      modifies this
      ensures View() == Requeued(old(View()), bit, missing, waiting)
    {
      var start := if bit in requests then requests[bit] else [];
      assert QueueOk(requests, bit);
      var queue := Requeue(start, missing);
      InsertAllLength(start, missing);
      requests := requests[bit := queue];
      if |queue| == |missing| {
        Offer(bit, waiting);
      }
    }
  }

  /** The distributor after queueing missing sections again. */
  function Requeued(d: Dist, bit: nat, missing: seq<nat>, waiting: bool): Dist {
    var d1 := SetQueue(d, bit, InsertAll(Queue(d, bit), missing));
    if |Queue(d, bit)| == 0 then AssignBit(d1, bit, waiting) else d1
  }

  /** What a delivery does to the distributor's own variables. */
  lemma DeliverDist(w: World, k: nat, full: seq<bool>, waiting: bool)
    requires k < |w.holders| && w.holders[k].Fetching? && |full| <= |w.holders[k].sections|
    ensures var missing := Sieve(w.holders[k].sections, full, false);
            var d1 := w.d.(allocs := w.d.allocs - 1);
            DeliverStep(w, k, full, waiting).d
            == if |missing| == 0 then d1 else Requeued(d1, w.holders[k].bit, missing, waiting)
  {
  }

  /** Which vectors of a delivery are not empty. */
  function Fullness(bitsets: seq<seq<bv8>>): (full: seq<bool>)
    ensures |full| == |bitsets|
  {
    seq(|bitsets|, i requires 0 <= i < |bitsets| => |bitsets[i]| > 0)
  }

  lemma {:induction false} InsertAllLength(q: seq<nat>, ss: seq<nat>)
    ensures |InsertAll(q, ss)| == |q| + |ss|
    decreases |ss|
  {
    if |ss| > 0 {
      InsertAllLength(q, ss[..|ss| - 1]);
    }
  }
}
