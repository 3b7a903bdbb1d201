/**
 The concurrent daisy chain run on real rules: for every interleaving of the sub-matchers
 the sink receives, in section order, exactly the sections with a matching block, each
 with the vector of its matches.
 */
module BloomTheorem {
  import opened Bits
  import opened BloomGenerator
  import opened BloomReader
  import opened BloomMatcher
  import opened BloomPipeline

  /** A rule's matches among the earlier ones, by the vectors of section `s`. */
  ghost function MergeBits(rule: Rule, bloomOf: nat -> Bloom, size: nat, s: nat, bits: seq<bool>): seq<bool>
    requires forall c :: 0 <= c < |rule| ==> InBloom(rule[c])
  {
    seq(|bits|, j requires 0 <= j < |bits| => bits[j] && IndexedRuleMatches(rule, bloomOf(SectionStart(s, size) + j)))
  }

  ghost function Merge(rules: seq<Rule>, bloomOf: nat -> Bloom, size: nat, r: nat, s: nat, x: Item): Option<Item>
    requires AllInBloom(rules)
  {
    if r >= |rules| then Option.None
    else
      var bits := MergeBits(rules[r], bloomOf, size, s, x.bits);
      if true in bits then Some(Item(x.section, bits)) else Option.None
  }

  ghost function SubMatchers(rules: seq<Rule>, bloomOf: nat -> Bloom, size: nat): Work
    requires AllInBloom(rules)
  {
    (r: nat, s: nat, x: Item) => Merge(rules, bloomOf, size, r, s, x)
  }

  /** The sub-matcher code does what its pipeline stage says. */
  method ProcessItem(fetch: Fetch, section: nat, rules: seq<Rule>, r: nat, bitset: array<bv8>,
                     ghost bloomOf: nat -> Bloom, ghost size: nat)
    returns (orVector: array<bv8>, passed: bool)
    requires AllInBloom(rules) && r < |rules| && size == 8 * bitset.Length
    requires ServesRule(fetch, SectionBlooms(bloomOf, size, section), section, rules[r])
    ensures fresh(orVector) && orVector.Length == bitset.Length
    ensures Merge(rules, bloomOf, size, r, section, Item(section, Unpack(bitset[..])))
            == if passed then Some(Item(section, Unpack(orVector[..]))) else Option.None
  {
    ghost var blooms := SectionBlooms(bloomOf, size, section);
    orVector, passed := MatchRule(fetch, section, rules[r], bitset, blooms);
    ghost var bits := MergeBits(rules[r], bloomOf, size, section, Unpack(bitset[..]));
    assert bits == Unpack(orVector[..]);
    SomeTrue(orVector[..]);
  }

  lemma SomeTrue(v: Bytes)
    ensures true in Unpack(v) <==> exists j :: 0 <= j < 8 * |v| && BitAt(v, j)
  {
    if j :| 0 <= j < 8 * |v| && BitAt(v, j) {
      assert Unpack(v)[j];
    }
  }

  function Ones(size: nat): seq<bool> {
    seq(size, _ => true)
  }

  /** The blocks of a section that match the first `r` rules. */
  ghost function Matches(rules: seq<Rule>, bloomOf: nat -> Bloom, size: nat, s: nat, r: nat): (bits: seq<bool>)
    requires AllInBloom(rules) && r <= |rules|
    ensures |bits| == size
  {
    seq(size, j requires 0 <= j < size => IndexedMatches(rules[..r], bloomOf(SectionStart(s, size) + j)))
  }

  lemma MatchesMore(rules: seq<Rule>, bloomOf: nat -> Bloom, size: nat, s: nat, r: nat)
    requires AllInBloom(rules) && r < |rules|
    ensures MergeBits(rules[r], bloomOf, size, s, Matches(rules, bloomOf, size, s, r))
            == Matches(rules, bloomOf, size, s, r + 1)
  {
    assert rules[..r + 1] == rules[..r] + [rules[r]];
    forall j | 0 <= j < size
      ensures MergeBits(rules[r], bloomOf, size, s, Matches(rules, bloomOf, size, s, r))[j]
              == Matches(rules, bloomOf, size, s, r + 1)[j]
    {
      AddRule(rules[..r], rules[r], bloomOf(SectionStart(s, size) + j));
    }
  }

  /** Every block matches no rules. */
  lemma AllOnes(rules: seq<Rule>, bloomOf: nat -> Bloom, size: nat, s: nat)
    requires AllInBloom(rules) && 0 < size
    ensures Matches(rules, bloomOf, size, s, 0) == Ones(size)
    ensures true in Matches(rules, bloomOf, size, s, 0)
  {
    var ones := Matches(rules, bloomOf, size, s, 0);
    forall j | 0 <= j < size
      ensures ones[j]
    {
      assert IndexedMatches(rules[..0], bloomOf(SectionStart(s, size) + j));
    }
    assert ones[0];
  }

  /** No match so far means no match at all. */
  lemma NoneLater(rules: seq<Rule>, bloomOf: nat -> Bloom, size: nat, s: nat, r: nat)
    requires AllInBloom(rules) && r <= |rules| && true !in Matches(rules, bloomOf, size, s, r)
    ensures true !in Matches(rules, bloomOf, size, s, |rules|)
  {
    assert rules[..|rules|] == rules;
    forall j | 0 <= j < size
      ensures !Matches(rules, bloomOf, size, s, |rules|)[j]
    {
      assert !Matches(rules, bloomOf, size, s, r)[j];
      FewerRules(rules, r, bloomOf(SectionStart(s, size) + j));
    }
  }

  /** What the sink gets for one section: its matches if it has any. */
  ghost function Survivor(rules: seq<Rule>, bloomOf: nat -> Bloom, size: nat, s: nat): seq<Item>
    requires AllInBloom(rules)
  {
    var bits := Matches(rules, bloomOf, size, s, |rules|);
    if true in bits then [Item(s, bits)] else []
  }

  lemma {:induction false} SectionThrough(rules: seq<Rule>, bloomOf: nat -> Bloom, size: nat, s: nat, r: nat)
    requires AllInBloom(rules) && r <= |rules|
    requires true in Matches(rules, bloomOf, size, s, r)
    ensures Through(SubMatchers(rules, bloomOf, size), |rules|, r, [Item(s, Matches(rules, bloomOf, size, s, r))])
            == Survivor(rules, bloomOf, size, s)
    decreases |rules| - r
  {
    var f := SubMatchers(rules, bloomOf, size);
    var x := Item(s, Matches(rules, bloomOf, size, s, r));
    if r < |rules| {
      MatchesMore(rules, bloomOf, size, s, r);
      ThroughHead(f, |rules|, r, x, []);
      ThroughNone(f, |rules|, r);
      assert [x] + [] == [x];
      var bits := Matches(rules, bloomOf, size, s, r + 1);
      assert f(r, s, x) == Merge(rules, bloomOf, size, r, s, x);
      if true in bits {
        SectionThrough(rules, bloomOf, size, s, r + 1);
      } else {
        NoneLater(rules, bloomOf, size, s, r + 1);
        ThroughNone(f, |rules|, r + 1);
      }
    }
  }

  /** The source: every section of the range with a vector of ones. */
  function Source(first: nat, count: nat, size: nat): (items: seq<Item>)
    ensures |items| == count
  {
    if count == 0 then [] else Source(first, count - 1, size) + [Item(first + count - 1, Ones(size))]
  }

  /** What each section leaves, one section after the other. */
  function Flatten(each: nat -> seq<Item>, first: nat, count: nat): seq<Item> {
    if count == 0 then [] else Flatten(each, first, count - 1) + each(first + count - 1)
  }

  lemma {:induction false} FlattenSame(a: nat -> seq<Item>, b: nat -> seq<Item>, first: nat, count: nat)
    requires forall s: nat :: a(s) == b(s)
    ensures Flatten(a, first, count) == Flatten(b, first, count)
  {
    if count > 0 {
      FlattenSame(a, b, first, count - 1);
    }
  }

  ghost function Survivors(rules: seq<Rule>, bloomOf: nat -> Bloom, size: nat): nat -> seq<Item>
    requires AllInBloom(rules)
  {
    (s: nat) => Survivor(rules, bloomOf, size, s)
  }

  lemma OneSection(rules: seq<Rule>, bloomOf: nat -> Bloom, size: nat, s: nat)
    requires AllInBloom(rules) && 0 < size
    ensures Through(SubMatchers(rules, bloomOf, size), |rules|, 0, [Item(s, Ones(size))]) == Survivor(rules, bloomOf, size, s)
  {
    AllOnes(rules, bloomOf, size, s);
    SectionThrough(rules, bloomOf, size, s, 0);
  }

  /** A section through the chain. */
  function Part(f: Work, n: nat, size: nat): nat -> seq<Item> {
    (s: nat) => Through(f, n, 0, [Item(s, Ones(size))])
  }

  lemma {:induction false} SourceParts(f: Work, n: nat, size: nat, first: nat, count: nat)
    ensures Through(f, n, 0, Source(first, count, size)) == Flatten(Part(f, n, size), first, count)
  {
    if count == 0 {
      ThroughNone(f, n, 0);
    } else {
      var x := Item(first + count - 1, Ones(size));
      SourceParts(f, n, size, first, count - 1);
      ThroughAppend(f, n, 0, Source(first, count - 1, size), [x]);
      assert Part(f, n, size)(first + count - 1) == Through(f, n, 0, [x]);
    }
  }

  lemma SourceThrough(rules: seq<Rule>, bloomOf: nat -> Bloom, size: nat, first: nat, count: nat)
    requires AllInBloom(rules) && 0 < size
    ensures Through(SubMatchers(rules, bloomOf, size), |rules|, 0, Source(first, count, size))
            == Flatten(Survivors(rules, bloomOf, size), first, count)
  {
    var f := SubMatchers(rules, bloomOf, size);
    forall s: nat
      ensures Part(f, |rules|, size)(s) == Survivors(rules, bloomOf, size)(s)
    {
      OneSection(rules, bloomOf, size, s);
    }
    SourceParts(f, |rules|, size, first, count);
    FlattenSame(Part(f, |rules|, size), Survivors(rules, bloomOf, size), first, count);
  }

  /**
   For every interleaving of the sub-matchers: what has reached the sink is a prefix of
   the surviving sections in order, and all of them once nothing can move.
   */
  lemma DaisyChain(rules: seq<Rule>, bloomOf: nat -> Bloom, size: nat, first: nat, count: nat, run: seq<Action>)
    requires AllInBloom(rules) && 0 < size
    requires IsRun(SubMatchers(rules, bloomOf, size), Start(Source(first, count, size), |rules|), run)
    ensures var st := Exec(SubMatchers(rules, bloomOf, size), Start(Source(first, count, size), |rules|), run);
            && st.sink <= Flatten(Survivors(rules, bloomOf, size), first, count)
            && ((forall a :: !Enabled(st, a)) ==> st.sink == Flatten(Survivors(rules, bloomOf, size), first, count))
  {
    SourceThrough(rules, bloomOf, size, first, count);
    EveryInterleaving(SubMatchers(rules, bloomOf, size), Source(first, count, size), |rules|, run);
  }

  /** Every run ends, within `2n + 1` moves for each section. */
  lemma DaisyChainEnds(f: Work, source: seq<Item>, n: nat, run: seq<Action>)
    requires IsRun(f, Start(source, n), run)
    ensures |run| <= (2 * n + 1) * |source|
  {
    RunBounded(f, Start(source, n), run);
    NoLoad(Start(source, n).stages, 0);
  }

  lemma {:induction false} NoLoad(stages: seq<Stage>, r: nat)
    requires r <= |stages| && forall k :: 0 <= k < |stages| ==> stages[k] == Stage([], [], 0, [])
    ensures Load(stages, r) == 0
    decreases |stages| - r
  {
    if r < |stages| {
      NoLoad(stages, r + 1);
    }
  }

  // -------------------------------------------------------- reading the results

  /** The blocks read from the sections that have reached the sink. */
  ghost function Blocks(items: seq<Item>, size: nat, begin: nat, end: nat): seq<nat> {
    if items == [] then []
    else
      var x := items[|items| - 1];
      Blocks(items[..|items| - 1], size, begin, end) + Wanted(x.bits, SectionStart(x.section, size), begin, end)
  }

  lemma BlocksStep(items: seq<Item>, x: Item, size: nat, begin: nat, end: nat)
    ensures Blocks(items + [x], size, begin, end)
         == Blocks(items, size, begin, end) + Wanted(x.bits, SectionStart(x.section, size), begin, end)
  {
    assert (items + [x])[..|items|] == items;
  }

  /** What has been read is a prefix of what will have been read. */
  lemma {:induction false} BlocksPrefix(a: seq<Item>, b: seq<Item>, size: nat, begin: nat, end: nat)
    requires a <= b
    ensures Blocks(a, size, begin, end) <= Blocks(b, size, begin, end)
    decreases |b|
  {
    if |a| < |b| {
      var front := b[..|b| - 1];
      assert b == front + [b[|b| - 1]];
      BlocksPrefix(a, front, size, begin, end);
      BlocksStep(front, b[|b| - 1], size, begin, end);
    } else {
      assert a == b;
    }
  }

  ghost function Matching(rules: seq<Rule>, bloomOf: nat -> Bloom): nat -> bool
    requires AllInBloom(rules)
  {
    (n: nat) => IndexedMatches(rules, bloomOf(n))
  }

  /** A section's last vector marks its matching blocks. */
  lemma MatchesKeep(rules: seq<Rule>, bloomOf: nat -> Bloom, size: nat, s: nat, start: nat)
    requires AllInBloom(rules) && start == SectionStart(s, size)
    ensures forall j :: 0 <= j < size ==>
              (Matches(rules, bloomOf, size, s, |rules|)[j] <==> Matching(rules, bloomOf)(start + j))
  {
    assert rules[..|rules|] == rules;
  }

  lemma NoneMarked(bits: seq<bool>, keep: nat -> bool, start: nat)
    requires true !in bits && forall j :: 0 <= j < |bits| ==> (bits[j] <==> keep(start + j))
    ensures forall n :: start <= n < start + |bits| ==> !keep(n)
  {
    forall n | start <= n < start + |bits| ensures !keep(n) {
      assert bits[n - start] <==> keep(start + (n - start));
    }
  }

  /** What the sink gets for section `s`: a vector that marks its blocks to keep, or nothing if there are none. */
  ghost predicate Reports(items: seq<Item>, keep: nat -> bool, size: nat, s: nat) {
    var start := SectionStart(s, size);
    if items == [] then forall n :: start <= n < start + size ==> !keep(n)
    else
      && |items| == 1 && items[0].section == s && |items[0].bits| == size
      && forall j :: 0 <= j < size ==> (items[0].bits[j] <==> keep(start + j))
  }

  lemma SurvivorReports(rules: seq<Rule>, bloomOf: nat -> Bloom, size: nat, s: nat)
    requires AllInBloom(rules)
    ensures Reports(Survivor(rules, bloomOf, size, s), Matching(rules, bloomOf), size, s)
  {
    var bits, start := Matches(rules, bloomOf, size, s, |rules|), SectionStart(s, size);
    MatchesKeep(rules, bloomOf, size, s, start);
    if true !in bits {
      NoneMarked(bits, Matching(rules, bloomOf), start);
    }
  }

  /** The blocks read from one section extend the list to its end. */
  lemma ReportListed(more: seq<Item>, keep: nat -> bool, size: nat, begin: nat, end: nat, s: nat, start: nat, bound: nat,
                     items: seq<Item>, sofar: seq<nat>) returns (blocks: seq<nat>)
    requires Reports(more, keep, size, s) && start == SectionStart(s, size) && bound == start + size
    requires sofar == Blocks(items, size, begin, end) && ListsKept(sofar, keep, begin, end, start)
    ensures blocks == Blocks(items + more, size, begin, end) && ListsKept(blocks, keep, begin, end, bound)
  {
    if more == [] {
      assert items + more == items;
      SectionSkipped(sofar, keep, begin, end, start, size);
      blocks := sofar;
    } else {
      assert more == [more[0]];
      BlocksStep(items, more[0], size, begin, end);
      SectionListed(sofar, more[0].bits, keep, begin, end, start);
      blocks := sofar + Wanted(more[0].bits, start, begin, end);
    }
  }

  /** The blocks read from consecutive sections, each reported, are those to keep. */
  lemma {:induction false} FlattenListed(each: nat -> seq<Item>, keep: nat -> bool, size: nat, begin: nat, end: nat,
                                         first: nat, count: nat, bound: nat) returns (blocks: seq<nat>)
    requires SectionStart(first, size) <= begin && forall s: nat :: Reports(each(s), keep, size, s)
    requires bound == SectionStart(first + count, size)
    ensures blocks == Blocks(Flatten(each, first, count), size, begin, end)
    ensures ListsKept(blocks, keep, begin, end, bound)
    decreases count
  {
    if count == 0 {
      blocks := [];
    } else {
      var s := first + count - 1;
      var start := SectionStart(s, size);
      var sofar := FlattenListed(each, keep, size, begin, end, first, count - 1, start);
      assert Reports(each(s), keep, size, s);
      blocks := ReportListed(each(s), keep, size, begin, end, s, start, bound, Flatten(each, first, count - 1), sofar);
    }
  }

  /** How many sections the range covers. */
  function SectionCount(begin: nat, end: nat, size: nat): nat
    requires 0 < size
  {
    if SectionOf(begin, size) <= SectionOf(end, size) then SectionOf(end, size) - SectionOf(begin, size) + 1 else 0
  }

  /** Everything the range has to give. */
  ghost function Answer(rules: seq<Rule>, bloomOf: nat -> Bloom, size: nat, begin: nat, end: nat): seq<nat>
    requires AllInBloom(rules) && 0 < size
  {
    Blocks(Flatten(Survivors(rules, bloomOf, size), SectionOf(begin, size), SectionCount(begin, end, size)), size, begin, end)
  }

  /** The answer is, in increasing order, the blocks a naive test of each block keeps. */
  lemma AnswerExact(hash: Hash, filters: seq<seq<Clause>>, rules: seq<Rule>, bloomOf: nat -> Bloom,
                    size: nat, begin: nat, end: nat)
    requires Compiled(hash, filters, rules) && 0 < size
    ensures Increasing(Answer(rules, bloomOf, size, begin, end))
    ensures forall n :: n in Answer(rules, bloomOf, size, begin, end) <==>
              begin <= n <= end && BlockMatches(hash, filters, bloomOf(n))
  {
    var first, count := SectionOf(begin, size), SectionCount(begin, end, size);
    OwnSection(begin, size);
    forall s: nat ensures Reports(Survivors(rules, bloomOf, size)(s), Matching(rules, bloomOf), size, s) {
      SurvivorReports(rules, bloomOf, size, s);
    }
    var blocks := FlattenListed(Survivors(rules, bloomOf, size), Matching(rules, bloomOf), size, begin, end, first, count,
                                SectionStart(first + count, size));
    PastEnd(end, if count > 0 then first + count else first, size);
    var answer, keep := Answer(rules, bloomOf, size, begin, end), Matching(rules, bloomOf);
    forall n: nat ensures n in answer <==> begin <= n <= end && BlockMatches(hash, filters, bloomOf(n)) {
      assert keep(n) <==> BlockMatches(hash, filters, bloomOf(n));
    }
  }

  /** The chain over the sections of a range. */
  ghost function Session(rules: seq<Rule>, size: nat, begin: nat, end: nat): BloomPipeline.State
    requires 0 < size
  {
    Start(Source(SectionOf(begin, size), SectionCount(begin, end, size), size), |rules|)
  }

  /**
   Under every interleaving of the chain, what the reader has listed is a prefix of the
   answer, and all of it once nothing can move.
   */
  lemma EveryInterleavingLists(rules: seq<Rule>, bloomOf: nat -> Bloom, size: nat, begin: nat, end: nat, run: seq<Action>)
    requires AllInBloom(rules) && 0 < size
    requires IsRun(SubMatchers(rules, bloomOf, size), Session(rules, size, begin, end), run)
    ensures var st := Exec(SubMatchers(rules, bloomOf, size), Session(rules, size, begin, end), run);
            && Blocks(st.sink, size, begin, end) <= Answer(rules, bloomOf, size, begin, end)
            && ((forall a :: !Enabled(st, a)) ==> Blocks(st.sink, size, begin, end) == Answer(rules, bloomOf, size, begin, end))
  {
    var first, count := SectionOf(begin, size), SectionCount(begin, end, size);
    DaisyChain(rules, bloomOf, size, first, count, run);
    BlocksPrefix(Exec(SubMatchers(rules, bloomOf, size), Session(rules, size, begin, end), run).sink,
                 Flatten(Survivors(rules, bloomOf, size), first, count), size, begin, end);
  }

  /** A section and its vector, as they come out of the chain. */
  datatype Vector = Vector(section: nat, bitset: Bytes)

  /** The vectors are those of the items. */
  ghost predicate Carries(sink: seq<Vector>, items: seq<Item>) {
    && |sink| == |items|
    && forall i :: 0 <= i < |sink| ==> items[i] == Item(sink[i].section, Unpack(sink[i].bitset))
  }

  /** Every item is a section of the range with some block marked. */
  ghost predicate Marked(items: seq<Item>, size: nat, bound: nat) {
    forall i :: 0 <= i < |items| ==> items[i].section < bound && |items[i].bits| == size && true in items[i].bits
  }

  lemma {:induction false} FlattenMarked(rules: seq<Rule>, bloomOf: nat -> Bloom, size: nat, first: nat, count: nat)
    requires AllInBloom(rules)
    ensures Marked(Flatten(Survivors(rules, bloomOf, size), first, count), size, first + count)
  {
    if count > 0 {
      FlattenMarked(rules, bloomOf, size, first, count - 1);
    }
  }

  /** The reader's loop over the sink. */
  method ReadSink(sink: seq<Vector>, size: nat, begin: nat, end: nat, ghost items: seq<Item>) returns (results: seq<nat>)
    requires 0 < size < TWO64 && size % 8 == 0 && begin < TWO64 && end < TWO64 && Readable(begin, end, size)
    requires Carries(sink, items) && Marked(items, size, SectionOf(end, size) + 1)
    ensures results == Blocks(items, size, begin, end)
  {
    results := [];
    for i := 0 to |sink|
      invariant results == Blocks(items[..i], size, begin, end)
    {
      var v := sink[i];
      SomeTrue(v.bitset);
      SomeBit(v.bitset);
      SectionReadable(v.section, begin, end, size);
      StartAligned(v.section, size);
      ReadRight(v.bitset, SectionStart(v.section, size), begin, end);
      var r := ReadBlocks(v.bitset, v.section, size, begin, end);
      assert items[..i + 1] == items[..i] + [items[i]];
      BlocksStep(items[..i], items[i], size, begin, end);
      results := results + r.blocks;
    }
    assert items[..|sink|] == items;
  }

  /**
   The whole matcher under every interleaving: what the reader lists from the sink are
   matching blocks in increasing order, and once the chain is done they are all of them.
   */
  method ListMatches(hash: Hash, filters: seq<seq<Clause>>, rules: seq<Rule>, size: nat, begin: nat, end: nat,
                     sink: seq<Vector>, ghost bloomOf: nat -> Bloom, ghost run: seq<Action>)
    returns (results: seq<nat>)
    requires 0 < size < TWO64 && size % 8 == 0 && begin < TWO64 && end < TWO64 && Readable(begin, end, size)
    requires Compiled(hash, filters, rules)
    requires IsRun(SubMatchers(rules, bloomOf, size), Session(rules, size, begin, end), run)
    requires Carries(sink, Exec(SubMatchers(rules, bloomOf, size), Session(rules, size, begin, end), run).sink)
    ensures Increasing(results)
    ensures forall n :: n in results ==> begin <= n <= end && BlockMatches(hash, filters, bloomOf(n))
    ensures var st := Exec(SubMatchers(rules, bloomOf, size), Session(rules, size, begin, end), run);
            (forall a :: !Enabled(st, a)) ==>
              forall n :: n in results <==> begin <= n <= end && BlockMatches(hash, filters, bloomOf(n))
  {
    ghost var items := Exec(SubMatchers(rules, bloomOf, size), Session(rules, size, begin, end), run).sink;
    ghost var first, count := SectionOf(begin, size), SectionCount(begin, end, size);
    DaisyChain(rules, bloomOf, size, first, count, run);
    FlattenMarked(rules, bloomOf, size, first, count);
    MarkedPrefix(items, Flatten(Survivors(rules, bloomOf, size), first, count), size, begin, end);
    results := ReadSink(sink, size, begin, end, items);
    EveryInterleavingLists(rules, bloomOf, size, begin, end, run);
    AnswerExact(hash, filters, rules, bloomOf, size, begin, end);
    IncreasingPrefix(results, Answer(rules, bloomOf, size, begin, end));
  }

  lemma MarkedPrefix(a: seq<Item>, b: seq<Item>, size: nat, begin: nat, end: nat)
    requires 0 < size && a <= b && Marked(b, size, SectionOf(begin, size) + SectionCount(begin, end, size))
    requires SectionCount(begin, end, size) == 0 ==> b == []
    ensures Marked(a, size, SectionOf(end, size) + 1)
  {
    forall i | 0 <= i < |a|
      ensures a[i].section < SectionOf(end, size) + 1 && |a[i].bits| == size && true in a[i].bits
    {
      assert a[i] == b[i];
    }
  }

  lemma IncreasingPrefix(a: seq<nat>, b: seq<nat>)
    requires a <= b && Increasing(b)
    ensures Increasing(a) && forall n :: n in a ==> n in b
  {
    assert forall i :: 0 <= i < |a| ==> a[i] == b[i];
  }
}
