/**
 The bloom-bits matcher (common/bloombits/matcher.go): rules become bit indexes, every
 rule ANDs and ORs bit columns section by section, and the surviving bits are listed as
 block numbers.

 The theorem is `FilterBlocks`: the pipeline lists, in increasing order, exactly the
 blocks that a naive per-block test of the bloom would keep.
 */
module BloomMatcher {
  import opened Bits
  import opened BloomGenerator
  import opened BitUtil
  import opened BloomReader

  // ------------------------------------------------------------------- the filter

  /** The hash is abstract: any function to 32 bytes. */
  type Digest = b: Bytes | |b| == 32 witness seq(32, _ => 0)
  type Hash = Bytes -> Digest

  datatype Clause = Nil | Key(bytes: Bytes)

  /** The three bloom bits of a key. */
  datatype Indexes = Indexes(i0: nat, i1: nat, i2: nat)

  /** Two digest bytes as a bit index: the shifted high byte is masked, then the low byte added. */
  function BitIndex(high: nat, low: nat): (i: nat)
    requires high < 256 && low < 256
    ensures i < BLOOM_BITS
    ensures i == (high * 256 + low) % BLOOM_BITS
  {
    assert high * 256 == 2048 * (high / 8) + 256 * (high % 8);
    (high * 256) % 2048 + low
  }

  function CalcBloomIndexes(hash: Hash, key: Bytes): Indexes {
    var b := hash(key);
    Indexes(BitIndex(b[0] as nat, b[1] as nat), BitIndex(b[2] as nat, b[3] as nat), BitIndex(b[4] as nat, b[5] as nat))
  }

  predicate InBloom(x: Indexes) {
    x.i0 < BLOOM_BITS && x.i1 < BLOOM_BITS && x.i2 < BLOOM_BITS
  }

  /** All three bits of a key are in a bloom. */
  predicate KeyInBloom(x: Indexes, bloom: Bloom)
    requires InBloom(x)
  {
    BloomBit(bloom, x.i0) && BloomBit(bloom, x.i1) && BloomBit(bloom, x.i2)
  }

  /** The naive test of one rule: no clauses or a nil clause match everything. */
  ghost predicate RuleMatches(hash: Hash, rule: seq<Clause>, bloom: Bloom) {
    || |rule| == 0
    || Nil in rule
    || exists c :: 0 <= c < |rule| && rule[c].Key? && KeyInBloom(CalcBloomIndexes(hash, rule[c].bytes), bloom)
  }

  /** The naive test of a block: every rule matches. */
  ghost predicate BlockMatches(hash: Hash, filters: seq<seq<Clause>>, bloom: Bloom) {
    forall r :: 0 <= r < |filters| ==> RuleMatches(hash, filters[r], bloom)
  }

  type Rule = seq<Indexes>

  ghost predicate IndexedRuleMatches(rule: Rule, bloom: Bloom)
    requires forall c :: 0 <= c < |rule| ==> InBloom(rule[c])
  {
    exists c :: 0 <= c < |rule| && KeyInBloom(rule[c], bloom)
  }

  ghost predicate AllInBloom(rules: seq<Rule>) {
    forall r, c :: 0 <= r < |rules| && 0 <= c < |rules[r]| ==> InBloom(rules[r][c])
  }

  ghost predicate IndexedMatches(rules: seq<Rule>, bloom: Bloom)
    requires AllInBloom(rules)
  {
    forall r :: 0 <= r < |rules| ==> IndexedRuleMatches(rules[r], bloom)
  }

  /** The bit indexes of some key of the filter. */
  ghost predicate FromFilters(hash: Hash, filters: seq<seq<Clause>>, x: Indexes) {
    exists f, e :: 0 <= f < |filters| && 0 <= e < |filters[f]| && filters[f][e].Key?
                   && x == CalcBloomIndexes(hash, filters[f][e].bytes)
  }

  /** One rule: the bit indexes of its clauses, or nothing once a nil clause is met. */
  method IndexRule(hash: Hash, filter: seq<Clause>) returns (found: bool, bits: Rule)
    ensures found <==> Nil !in filter
    ensures found ==> |bits| == |filter|
    ensures found ==> forall c :: 0 <= c < |bits| ==>
      filter[c].Key? && InBloom(bits[c]) && bits[c] == CalcBloomIndexes(hash, filter[c].bytes)
  {
    bits := [];
    for i := 0 to |filter|
      invariant |bits| == i
      invariant forall c :: 0 <= c < i ==>
        filter[c].Key? && InBloom(bits[c]) && bits[c] == CalcBloomIndexes(hash, filter[c].bytes)
    {
      if filter[i].Nil? {
        return false, [];
      }
      bits := bits + [CalcBloomIndexes(hash, filter[i].bytes)];
    }
    found := true;
  }

  /** A kept rule means what it meant. */
  lemma RuleMeaning(hash: Hash, filter: seq<Clause>, bits: Rule, bloom: Bloom)
    requires |filter| > 0 && Nil !in filter && |bits| == |filter|
    requires forall c :: 0 <= c < |bits| ==>
      filter[c].Key? && InBloom(bits[c]) && bits[c] == CalcBloomIndexes(hash, filter[c].bytes)
    ensures IndexedRuleMatches(bits, bloom) <==> RuleMatches(hash, filter, bloom)
  {
    if IndexedRuleMatches(bits, bloom) {
      var c :| 0 <= c < |bits| && KeyInBloom(bits[c], bloom);
      assert KeyInBloom(CalcBloomIndexes(hash, filter[c].bytes), bloom);
    }
    if RuleMatches(hash, filter, bloom) {
      var c :| 0 <= c < |filter| && filter[c].Key? && KeyInBloom(CalcBloomIndexes(hash, filter[c].bytes), bloom);
      assert KeyInBloom(bits[c], bloom);
    }
  }

  /** Indexed rules that stand for a filter: only its keys, and the same meaning. */
  ghost predicate Compiled(hash: Hash, filters: seq<seq<Clause>>, rules: seq<Rule>) {
    && AllInBloom(rules)
    && (forall r, c :: 0 <= r < |rules| && 0 <= c < |rules[r]| ==> FromFilters(hash, filters, rules[r][c]))
    && forall bloom: Bloom :: IndexedMatches(rules, bloom) <==> BlockMatches(hash, filters, bloom)
  }

  /** Empty rules and rules with a nil clause are dropped; the filter keeps its meaning. */
  method BuildFilters(hash: Hash, filters: seq<seq<Clause>>) returns (rules: seq<Rule>)
    ensures Compiled(hash, filters, rules)
    ensures forall r :: 0 <= r < |rules| ==> |rules[r]| > 0
  {
    rules := [];
    for f := 0 to |filters|
      invariant AllInBloom(rules)
      invariant forall r :: 0 <= r < |rules| ==> |rules[r]| > 0
      invariant forall r, c :: 0 <= r < |rules| && 0 <= c < |rules[r]| ==> FromFilters(hash, filters, rules[r][c])
      invariant forall bloom: Bloom :: IndexedMatches(rules, bloom) <==> BlockMatches(hash, filters[..f], bloom)
    {
      ghost var before := rules;
      var filter := filters[f];
      var kept := false;
      if |filter| > 0 {
        var found, bits := IndexRule(hash, filter);
        if found {
          rules := rules + [bits];
          kept := true;
        }
      }
      forall bloom: Bloom
        ensures IndexedMatches(rules, bloom) <==> BlockMatches(hash, filters[..f + 1], bloom)
      {
        AddFilter(hash, filters, f, bloom);
        if kept {
          RuleMeaning(hash, filter, rules[|rules| - 1], bloom);
          AddRule(before, rules[|rules| - 1], bloom);
        }
      }
    }
    assert filters[..|filters|] == filters;
  }

  lemma AddFilter(hash: Hash, filters: seq<seq<Clause>>, f: nat, bloom: Bloom)
    requires f < |filters|
    ensures BlockMatches(hash, filters[..f + 1], bloom) <==>
            BlockMatches(hash, filters[..f], bloom) && RuleMatches(hash, filters[f], bloom)
  {
    var a, b := filters[..f], filters[..f + 1];
    assert forall r :: 0 <= r < f ==> a[r] == b[r];
    assert b[f] == filters[f];
  }

  lemma AddRule(rules: seq<Rule>, bits: Rule, bloom: Bloom)
    requires AllInBloom(rules) && AllInBloom(rules + [bits])
    requires forall c :: 0 <= c < |bits| ==> InBloom(bits[c])
    ensures IndexedMatches(rules + [bits], bloom) <==> IndexedMatches(rules, bloom) && IndexedRuleMatches(bits, bloom)
  {
    var b := rules + [bits];
    assert forall r :: 0 <= r < |rules| ==> b[r] == rules[r];
    assert b[|rules|] == bits;
  }

  // ------------------------------------------------------------- one section, one rule

  lemma AndBit(x: bv8, y: bv8, k: nat)
    requires k < 8
    ensures Bit(x & y, k) <==> Bit(x, k) && Bit(y, k)
  {
    MaskTable();
  }

  lemma OrBit(x: bv8, y: bv8, k: nat)
    requires k < 8
    ensures Bit(x | y, k) <==> Bit(x, k) || Bit(y, k)
  {
    MaskTable();
  }

  lemma ZeroBits(b: bv8)
    ensures b != 0 <==> exists k :: 0 <= k < 8 && Bit(b, k)
  {
    if b != 0 {
      if forall k :: 0 <= k < 8 ==> !Bit(b, k) {
        forall k | 0 <= k < 8
          ensures Bit(b, k) == Bit(0, k)
        {
          NoBits(k);
        }
        ByteExt(b, 0);
      }
    } else {
      forall k | 0 <= k < 8
        ensures !Bit(b, k)
      {
        NoBits(k);
      }
    }
  }

  lemma ZipAnd(a: Bytes, b: Bytes, j: nat)
    requires |a| == |b| && j < 8 * |a|
    ensures BitAt(Zip(And, a, b), j) <==> BitAt(a, j) && BitAt(b, j)
  {
    AndBit(a[j / 8], b[j / 8], j % 8);
  }

  lemma ZipOr(a: Bytes, b: Bytes, j: nat)
    requires |a| == |b| && j < 8 * |a|
    ensures BitAt(Zip(Or, a, b), j) <==> BitAt(a, j) || BitAt(b, j)
  {
    OrBit(a[j / 8], b[j / 8], j % 8);
  }

  /** Some byte is non-zero exactly when some bit is set. */
  lemma SomeBit(a: Bytes)
    ensures (exists i :: 0 <= i < |a| && a[i] != 0) <==> exists j :: 0 <= j < 8 * |a| && BitAt(a, j)
  {
    if i :| 0 <= i < |a| && a[i] != 0 {
      ZeroBits(a[i]);
      var k :| 0 <= k < 8 && Bit(a[i], k);
      assert BitAt(a, 8 * i + k);
    }
    if j :| 0 <= j < 8 * |a| && BitAt(a, j) {
      ZeroBits(a[j / 8]);
    }
  }

  /** In-place AND with a vector of the same length. */
  method AndInto(v: array<bv8>, d: array<bv8>)
    requires v.Length == d.Length
    modifies v
    ensures forall j :: 0 <= j < 8 * v.Length ==>
      (BitAt(v[..], j) <==> BitAt(old(v[..]), j) && BitAt(old(d[..]), j))
  {
    ghost var a, b := v[..], d[..];
    var machine: Machine := *;
    var n := OpBytes(machine, And, v, v, d);
    assert v[..] == v[..][..n];
    forall j | 0 <= j < 8 * v.Length
      ensures BitAt(v[..], j) <==> BitAt(a, j) && BitAt(b, j)
    {
      ZipAnd(a, b, j);
    }
  }

  /** In-place OR with a vector of the same length. */
  method OrInto(v: array<bv8>, d: array<bv8>)
    requires v.Length == d.Length
    modifies v
    ensures forall j :: 0 <= j < 8 * v.Length ==>
      (BitAt(v[..], j) <==> BitAt(old(v[..]), j) || BitAt(old(d[..]), j))
  {
    ghost var a, b := v[..], d[..];
    var machine: Machine := *;
    var n := OpBytes(machine, Or, v, v, d);
    assert v[..] == v[..][..n];
    forall j | 0 <= j < 8 * v.Length
      ensures BitAt(v[..], j) <==> BitAt(a, j) || BitAt(b, j)
    {
      ZipOr(a, b, j);
    }
  }

  ghost predicate AllOfLength(ds: seq<array<bv8>>, n: nat) {
    forall k :: 0 <= k < |ds| ==> ds[k].Length == n
  }

  /** Bit `j` is set in every one of the vectors. */
  ghost predicate InEvery(ds: seq<array<bv8>>, j: nat)
    requires forall k :: 0 <= k < |ds| ==> j < 8 * ds[k].Length
    reads ds
  {
    forall k :: 0 <= k < |ds| ==> BitAt(ds[k][..], j)
  }

  /** The AND of the columns of one key, in a new vector. */
  method AndColumns(bytes: nat, sinks: seq<array<bv8>>) returns (andVector: array?<bv8>)
    requires AllOfLength(sinks, bytes)
    ensures andVector == null <==> |sinks| == 0
    ensures andVector != null ==> fresh(andVector) && andVector.Length == bytes
    ensures andVector != null ==> forall j :: 0 <= j < 8 * bytes ==> (BitAt(andVector[..], j) <==> InEvery(sinks, j))
  {
    andVector := null;
    for k := 0 to |sinks|
      invariant andVector == null <==> k == 0
      invariant andVector != null ==> fresh(andVector) && andVector.Length == bytes
      invariant andVector != null ==>
        forall j :: 0 <= j < 8 * bytes ==> (BitAt(andVector[..], j) <==> InEvery(sinks[..k], j))
    {
      var data := sinks[k];
      if andVector == null {
        andVector := new bv8[bytes](i requires 0 <= i < data.Length reads data => data[i]);
        assert andVector[..] == data[..];
      } else {
        AndInto(andVector, data);
      }
      assert sinks[..k + 1] == sinks[..k] + [data];
    }
    assert sinks[..|sinks|] == sinks;
  }

  /** Three vectors of the given length for each clause. */
  ghost predicate Shaped(clauses: seq<seq<array<bv8>>>, bytes: nat) {
    forall c :: 0 <= c < |clauses| ==> |clauses[c]| == 3 && AllOfLength(clauses[c], bytes)
  }

  ghost predicate InSome(clauses: seq<seq<array<bv8>>>, bytes: nat, j: nat)
    requires Shaped(clauses, bytes) && j < 8 * bytes
    reads set c, k | 0 <= c < |clauses| && 0 <= k < |clauses[c]| :: clauses[c][k]
  {
    exists c :: 0 <= c < |clauses| && InEvery(clauses[c], j)
  }

  lemma InSomeMore(clauses: seq<seq<array<bv8>>>, bytes: nat, n: nat, j: nat)
    requires Shaped(clauses, bytes) && n < |clauses| && j < 8 * bytes
    ensures InSome(clauses[..n + 1], bytes, j) <==> InSome(clauses[..n], bytes, j) || InEvery(clauses[n], j)
  {
    var a, b := clauses[..n], clauses[..n + 1];
    if InSome(b, bytes, j) {
      var c :| 0 <= c < |b| && InEvery(b[c], j);
      assert c < n ==> a[c] == b[c];
    }
    if InSome(a, bytes, j) {
      var c :| 0 <= c < |a| && InEvery(a[c], j);
      assert b[c] == a[c];
    }
    assert b[n] == clauses[n];
  }

  /** The OR over the keys of a rule of the AND over their columns, in a new vector. */
  method OrClauses(bytes: nat, clauses: seq<seq<array<bv8>>>) returns (orVector: array<bv8>)
    requires Shaped(clauses, bytes)
    ensures fresh(orVector) && orVector.Length == bytes
    ensures forall j :: 0 <= j < 8 * bytes ==> (BitAt(orVector[..], j) <==> InSome(clauses, bytes, j))
  {
    var v: array?<bv8> := null;
    for c := 0 to |clauses|
      invariant v == null <==> c == 0
      invariant v != null ==> fresh(v) && v.Length == bytes
      invariant v != null ==> forall j :: 0 <= j < 8 * bytes ==> (BitAt(v[..], j) <==> InSome(clauses[..c], bytes, j))
    {
      var andVector := AndColumns(bytes, clauses[c]);
      forall j | 0 <= j < 8 * bytes
        ensures InSome(clauses[..c + 1], bytes, j) <==> InSome(clauses[..c], bytes, j) || InEvery(clauses[c], j)
      {
        InSomeMore(clauses, bytes, c, j);
      }
      if v == null {
        v := andVector;
      } else {
        OrInto(v, andVector);
      }
    }
    assert clauses[..|clauses|] == clauses;
    if v == null {
      v := new bv8[bytes](_ => 0);
      forall j | 0 <= j < 8 * bytes
        ensures !BitAt(v[..], j)
      {
        NoBits(j % 8);
      }
    }
    orVector := v;
  }

  lemma OnesBit(k: nat)
    requires k < 8
    ensures Bit(0xff, k)
  {
    MaskTable();
  }

  /** A whole sub-matcher step on one section: the rule's matches among the earlier ones. */
  method SubMatch(bytes: nat, clauses: seq<seq<array<bv8>>>, bitset: array?<bv8>)
    returns (orVector: array<bv8>, passed: bool)
    requires Shaped(clauses, bytes) && (bitset != null ==> bitset.Length == bytes)
    ensures fresh(orVector) && orVector.Length == bytes
    ensures forall j :: 0 <= j < 8 * bytes ==>
      (BitAt(orVector[..], j) <==> (bitset != null ==> BitAt(bitset[..], j)) && InSome(clauses, bytes, j))
    ensures passed <==> exists j :: 0 <= j < 8 * bytes && BitAt(orVector[..], j)
  {
    orVector := OrClauses(bytes, clauses);
    if bitset != null {
      AndInto(orVector, bitset);
    }
    var machine: Machine := *;
    passed := TestBytes(machine, orVector);
    SomeBit(orVector[..]);
  }

  // --------------------------------------------------------------------- a section

  /** The first block of a section. */
  function SectionStart(s: nat, size: nat): nat {
    if s == 0 then 0 else SectionStart(s - 1, size) + size
  }

  lemma {:induction false} StartMul(s: nat, size: nat)
    ensures SectionStart(s, size) == s * size
  {
    if s > 0 {
      StartMul(s - 1, size);
      assert s * size == (s - 1) * size + size;
    }
  }

  /** The blooms of the blocks of one section. */
  function SectionBlooms(bloomOf: nat -> Bloom, size: nat, section: nat): seq<Bloom> {
    var start := SectionStart(section, size);
    seq(size, j requires 0 <= j < size => bloomOf(start + j))
  }

  /** What the retrievers deliver for a bit and section. */
  type Fetch = (nat, nat) -> Bytes

  /** The deliveries are the generator's columns for the bits of a key. */
  ghost predicate Serves(fetch: Fetch, blooms: seq<Bloom>, section: nat, x: Indexes)
    requires InBloom(x)
  {
    && IsColumn(fetch(x.i0, section), blooms, x.i0)
    && IsColumn(fetch(x.i1, section), blooms, x.i1)
    && IsColumn(fetch(x.i2, section), blooms, x.i2)
  }

  ghost predicate ServesRule(fetch: Fetch, blooms: seq<Bloom>, section: nat, rule: Rule)
    requires forall c :: 0 <= c < |rule| ==> InBloom(rule[c])
  {
    forall c :: 0 <= c < |rule| ==> Serves(fetch, blooms, section, rule[c])
  }

  ghost predicate ServesAll(fetch: Fetch, blooms: seq<Bloom>, section: nat, rules: seq<Rule>)
    requires AllInBloom(rules)
  {
    forall r :: 0 <= r < |rules| ==> ServesRule(fetch, blooms, section, rules[r])
  }

  method Receive(s: Bytes) returns (a: array<bv8>)
    ensures fresh(a) && a[..] == s
  {
    a := new bv8[|s|](i requires 0 <= i < |s| => s[i]);
  }

  /** The vectors of a key hold the key's bits of the blooms. */
  ghost predicate Carries(sinks: seq<array<bv8>>, bytes: nat, x: Indexes, blooms: seq<Bloom>)
    requires InBloom(x)
    reads sinks
  {
    && |sinks| == 3 && AllOfLength(sinks, bytes) && |blooms| == 8 * bytes
    && forall j :: 0 <= j < |blooms| ==> (InEvery(sinks, j) <==> KeyInBloom(x, blooms[j]))
  }

  /** The three columns of a key, as they arrive at the sub-matcher. */
  method ReceiveKey(fetch: Fetch, section: nat, x: Indexes, bytes: nat, ghost blooms: seq<Bloom>)
    returns (sinks: seq<array<bv8>>)
    requires InBloom(x) && |blooms| == 8 * bytes && Serves(fetch, blooms, section, x)
    ensures Carries(sinks, bytes, x, blooms)
    ensures fresh(sinks[0]) && fresh(sinks[1]) && fresh(sinks[2])
  {
    var a0 := Receive(fetch(x.i0, section));
    var a1 := Receive(fetch(x.i1, section));
    var a2 := Receive(fetch(x.i2, section));
    sinks := [a0, a1, a2];
    forall j | 0 <= j < |blooms|
      ensures InEvery(sinks, j) <==> KeyInBloom(x, blooms[j])
    {
      assert InEvery(sinks, j) <==> BitAt(a0[..], j) && BitAt(a1[..], j) && BitAt(a2[..], j);
    }
  }

  /** The columns of all the keys of a rule. */
  method ReceiveRule(fetch: Fetch, section: nat, rule: Rule, bytes: nat, ghost blooms: seq<Bloom>)
    returns (clauses: seq<seq<array<bv8>>>)
    requires forall c :: 0 <= c < |rule| ==> InBloom(rule[c])
    requires |blooms| == 8 * bytes && ServesRule(fetch, blooms, section, rule)
    ensures |clauses| == |rule|
    ensures forall e :: 0 <= e < |rule| ==> Carries(clauses[e], bytes, rule[e], blooms)
  {
    clauses := [];
    for c := 0 to |rule|
      invariant |clauses| == c
      invariant forall e, k :: 0 <= e < c && 0 <= k < |clauses[e]| ==> fresh(clauses[e][k])
      invariant forall e :: 0 <= e < c ==> Carries(clauses[e], bytes, rule[e], blooms)
    {
      var sinks := ReceiveKey(fetch, section, rule[c], bytes, blooms);
      clauses := clauses + [sinks];
    }
  }

  /** Some clause's vectors all have bit `j` exactly when the rule matches bloom `j`. */
  lemma SomeKey(clauses: seq<seq<array<bv8>>>, bytes: nat, rule: Rule, blooms: seq<Bloom>, j: nat)
    requires |clauses| == |rule| && |blooms| == 8 * bytes && j < |blooms|
    requires forall c :: 0 <= c < |rule| ==> InBloom(rule[c])
    requires forall e :: 0 <= e < |rule| ==> Carries(clauses[e], bytes, rule[e], blooms)
    ensures Shaped(clauses, bytes)
    ensures InSome(clauses, bytes, j) <==> IndexedRuleMatches(rule, blooms[j])
  {
    if InSome(clauses, bytes, j) {
      var c :| 0 <= c < |clauses| && InEvery(clauses[c], j);
      assert KeyInBloom(rule[c], blooms[j]);
    }
    if IndexedRuleMatches(rule, blooms[j]) {
      var c :| 0 <= c < |rule| && KeyInBloom(rule[c], blooms[j]);
      assert InEvery(clauses[c], j);
    }
  }

  /** One sub-matcher on one section: its rule's matches among the earlier ones. */
  method MatchRule(fetch: Fetch, section: nat, rule: Rule, bitset: array<bv8>, ghost blooms: seq<Bloom>)
    returns (orVector: array<bv8>, passed: bool)
    requires forall c :: 0 <= c < |rule| ==> InBloom(rule[c])
    requires |blooms| == 8 * bitset.Length && ServesRule(fetch, blooms, section, rule)
    ensures fresh(orVector) && orVector.Length == bitset.Length
    ensures forall j :: 0 <= j < |blooms| ==>
      (BitAt(orVector[..], j) <==> BitAt(bitset[..], j) && IndexedRuleMatches(rule, blooms[j]))
    ensures passed <==> exists j :: 0 <= j < |blooms| && BitAt(orVector[..], j)
  {
    var bytes := bitset.Length;
    var clauses := ReceiveRule(fetch, section, rule, bytes, blooms);
    forall j | 0 <= j < |blooms|
      ensures Shaped(clauses, bytes)
      ensures InSome(clauses, bytes, j) <==> IndexedRuleMatches(rule, blooms[j])
    {
      SomeKey(clauses, bytes, rule, blooms, j);
    }
    orVector, passed := SubMatch(bytes, clauses, bitset);
  }

  /** The vector of a section holds the matches of the first `n` rules. */
  ghost predicate Holds(v: Bytes, rules: seq<Rule>, blooms: seq<Bloom>)
    requires AllInBloom(rules)
  {
    && |blooms| == 8 * |v|
    && forall j :: 0 <= j < |blooms| ==> (BitAt(v, j) <==> IndexedMatches(rules, blooms[j]))
  }

  ghost predicate AnyBit(v: Bytes) {
    exists j :: 0 <= j < 8 * |v| && BitAt(v, j)
  }

  /** The vector every section starts with. */
  method NewOnes(bytes: nat) returns (v: array<bv8>)
    ensures fresh(v) && v.Length == bytes
    ensures forall j :: 0 <= j < 8 * bytes ==> BitAt(v[..], j)
    ensures 0 < bytes ==> AnyBit(v[..])
  {
    v := new bv8[bytes](_ => 0xff);
    forall j | 0 <= j < 8 * bytes
      ensures BitAt(v[..], j)
    {
      OnesBit(j % 8);
    }
    assert 0 < bytes ==> BitAt(v[..], 0);
  }

  lemma HoldsNone(v: Bytes, rules: seq<Rule>, blooms: seq<Bloom>)
    requires AllInBloom(rules) && |blooms| == 8 * |v| && forall j :: 0 <= j < |blooms| ==> BitAt(v, j)
    ensures Holds(v, rules[..0], blooms)
  {
  }

  /**
   A section through the daisy chain: every sub-matcher in turn, until one finds nothing.
   Either the final vector holds exactly the blocks that match, or none matches.
   */
  method MatchSection(fetch: Fetch, section: nat, size: nat, rules: seq<Rule>, ghost blooms: seq<Bloom>)
    returns (result: array?<bv8>)
    requires size % 8 == 0 && |blooms| == size
    requires AllInBloom(rules) && ServesAll(fetch, blooms, section, rules)
    ensures result == null ==> forall j :: 0 <= j < size ==> !IndexedMatches(rules, blooms[j])
    ensures result != null ==> Holds(result[..], rules, blooms)
    ensures result != null && 0 < size ==> AnyBit(result[..])
  {
    var bitset := NewOnes(size / 8);
    HoldsNone(bitset[..], rules, blooms);
    for r := 0 to |rules|
      invariant bitset.Length == size / 8
      invariant Holds(bitset[..], rules[..r], blooms)
      invariant 0 < size ==> AnyBit(bitset[..])
    {
      var next, passed := MatchRule(fetch, section, rules[r], bitset, blooms);
      HoldsMore(bitset[..], next[..], rules, r, blooms);
      if !passed {
        NothingHolds(next[..], rules, r + 1, blooms);
        return null;
      }
      bitset := next;
    }
    assert rules[..|rules|] == rules;
    return bitset;
  }

  /** One more rule: the vector holds the matches of the longer list. */
  lemma HoldsMore(v: Bytes, next: Bytes, rules: seq<Rule>, r: nat, blooms: seq<Bloom>)
    requires AllInBloom(rules) && r < |rules| && Holds(v, rules[..r], blooms) && |next| == |v|
    requires forall j :: 0 <= j < |blooms| ==> (BitAt(next, j) <==> BitAt(v, j) && IndexedRuleMatches(rules[r], blooms[j]))
    ensures Holds(next, rules[..r + 1], blooms)
  {
    assert rules[..r + 1] == rules[..r] + [rules[r]];
    forall j | 0 <= j < |blooms|
      ensures BitAt(next, j) <==> IndexedMatches(rules[..r + 1], blooms[j])
    {
      AddRule(rules[..r], rules[r], blooms[j]);
    }
  }

  lemma NothingHolds(v: Bytes, rules: seq<Rule>, n: nat, blooms: seq<Bloom>)
    requires AllInBloom(rules) && n <= |rules| && Holds(v, rules[..n], blooms)
    requires forall j :: 0 <= j < |blooms| ==> !BitAt(v, j)
    ensures forall j :: 0 <= j < |blooms| ==> !IndexedMatches(rules, blooms[j])
  {
    forall j | 0 <= j < |blooms|
      ensures !IndexedMatches(rules, blooms[j])
    {
      FewerRules(rules, n, blooms[j]);
    }
  }

  lemma FewerRules(rules: seq<Rule>, n: nat, bloom: Bloom)
    requires n <= |rules| && AllInBloom(rules)
    ensures IndexedMatches(rules, bloom) ==> IndexedMatches(rules[..n], bloom)
  {
  }

  // ------------------------------------------------------------------ end to end

  /** Retrieval serves the generator's columns for every bit the filter needs, in every section. */
  ghost predicate ServesFilters(hash: Hash, filters: seq<seq<Clause>>, fetch: Fetch, bloomOf: nat -> Bloom, size: nat) {
    forall x, s: nat :: FromFilters(hash, filters, x) && InBloom(x) ==>
      Serves(fetch, SectionBlooms(bloomOf, size, s), s, x)
  }

  lemma ServesRules(hash: Hash, filters: seq<seq<Clause>>, rules: seq<Rule>, fetch: Fetch, bloomOf: nat -> Bloom,
                    size: nat, s: nat)
    requires Compiled(hash, filters, rules) && ServesFilters(hash, filters, fetch, bloomOf, size)
    ensures ServesAll(fetch, SectionBlooms(bloomOf, size, s), s, rules)
  {
  }

  /** The section of a block. */
  function SectionOf(n: nat, size: nat): nat
    requires 0 < size
  {
    n / size
  }

  /** The blocks a naive test keeps. */
  ghost function Keep(hash: Hash, filters: seq<seq<Clause>>, bloomOf: nat -> Bloom): nat -> bool {
    (n: nat) => BlockMatches(hash, filters, bloomOf(n))
  }

  lemma KeepsMatch(hash: Hash, filters: seq<seq<Clause>>, rules: seq<Rule>, bloomOf: nat -> Bloom,
                   size: nat, section: nat, start: nat, j: nat)
    requires Compiled(hash, filters, rules) && start == SectionStart(section, size) && j < size
    ensures Keep(hash, filters, bloomOf)(start + j) <==> IndexedMatches(rules, SectionBlooms(bloomOf, size, section)[j])
  {
    assert SectionBlooms(bloomOf, size, section)[j] == bloomOf(start + j);
  }

  lemma BitsAreMatches(hash: Hash, filters: seq<seq<Clause>>, bitset: Bytes, rules: seq<Rule>, bloomOf: nat -> Bloom,
                       size: nat, section: nat, start: nat)
    requires Compiled(hash, filters, rules) && Holds(bitset, rules, SectionBlooms(bloomOf, size, section))
    requires start == SectionStart(section, size)
    ensures 8 * |bitset| == size
    ensures forall j :: 0 <= j < size ==> (Unpack(bitset)[j] <==> Keep(hash, filters, bloomOf)(start + j))
  {
    forall j | 0 <= j < size
      ensures Unpack(bitset)[j] <==> Keep(hash, filters, bloomOf)(start + j)
    {
      KeepsMatch(hash, filters, rules, bloomOf, size, section, start, j);
    }
  }

  lemma NoneHere(hash: Hash, filters: seq<seq<Clause>>, rules: seq<Rule>, bloomOf: nat -> Bloom,
                 size: nat, section: nat, start: nat)
    requires Compiled(hash, filters, rules) && start == SectionStart(section, size)
    requires forall j :: 0 <= j < size ==> !IndexedMatches(rules, SectionBlooms(bloomOf, size, section)[j])
    ensures forall n :: start <= n < start + size ==> !Keep(hash, filters, bloomOf)(n)
  {
    forall n | start <= n < start + size
      ensures !Keep(hash, filters, bloomOf)(n)
    {
      KeepsMatch(hash, filters, rules, bloomOf, size, section, start, n - start);
    }
  }

  lemma SectionSkipped(sofar: seq<nat>, keep: nat -> bool, begin: nat, end: nat, start: nat, size: nat)
    requires ListsKept(sofar, keep, begin, end, start)
    requires forall n :: start <= n < start + size ==> !keep(n)
    ensures ListsKept(sofar, keep, begin, end, start + size)
  {
  }

  lemma {:induction false} StartAligned(s: nat, size: nat)
    requires size % 8 == 0
    ensures SectionStart(s, size) % 8 == 0
  {
    if s > 0 {
      StartAligned(s - 1, size);
    }
  }

  lemma {:induction false} StartMonotone(s: nat, e: nat, size: nat)
    requires s <= e
    ensures SectionStart(s, size) <= SectionStart(e, size)
  {
    if s < e {
      StartMonotone(s, e - 1, size);
    }
  }

  lemma OwnSection(n: nat, size: nat)
    requires 0 < size
    ensures SectionStart(SectionOf(n, size), size) <= n < SectionStart(SectionOf(n, size), size) + size
  {
    StartMul(SectionOf(n, size), size);
    assert n == size * (n / size) + n % size;
  }

  /** The sections up to that of `end` start at or below it, and all but the last end there too. */
  lemma StartInRange(s: nat, end: nat, size: nat)
    requires 0 < size && s <= SectionOf(end, size)
    ensures SectionStart(s, size) <= end
    ensures s < SectionOf(end, size) ==> SectionStart(s, size) + size <= end
  {
    OwnSection(end, size);
    StartMonotone(s, SectionOf(end, size), size);
    if s < SectionOf(end, size) {
      StartMonotone(s + 1, SectionOf(end, size), size);
    }
  }

  lemma PastEnd(end: nat, s: nat, size: nat)
    requires 0 < size && SectionOf(end, size) < s
    ensures end < SectionStart(s, size)
  {
    OwnSection(end, size);
    StartMonotone(SectionOf(end, size) + 1, s, size);
  }

  /** The range can be read: its last section can. */
  predicate Readable(begin: nat, end: nat, size: nat)
    requires 0 < size
  {
    Works(SectionStart(SectionOf(end, size), size), size, begin, end)
  }

  lemma SectionReadable(s: nat, begin: nat, end: nat, size: nat)
    requires 0 < size && end < TWO64 && s <= SectionOf(end, size) && Readable(begin, end, size)
    ensures SectionStart(s, size) <= end && Works(SectionStart(s, size), size, begin, end)
  {
    StartInRange(s, end, size);
  }

  /** The reader's part of one section: first and last block, then the loop. */
  method ReadBlocks(bitset: Bytes, section: nat, size: nat, begin: nat, end: nat) returns (r: Read)
    requires 0 < size < TWO64 && size == 8 * |bitset| && begin < TWO64 && SectionStart(section, size) <= end < TWO64
    ensures r == ReadSection(bitset, SectionStart(section, size), begin, end)
  {
    StartMul(section, size);
    var start := Wrap(section * size);
    var first := start;
    if begin > first {
      first := begin;
    }
    var last := Wrap(start + size - 1);
    if end < last {
      last := end;
    }
    r := ReadLoop(bitset, start, first, last);
  }

  /** The blocks of a section whose vector reached the reader are appended to the list. */
  method ReadFound(bitset: Bytes, section: nat, size: nat, begin: nat, end: nat, sofar: seq<nat>,
                   ghost start: nat, ghost keep: nat -> bool)
    returns (results: seq<nat>)
    requires 0 < size < TWO64 && size == 8 * |bitset| && begin < TWO64
    requires start == SectionStart(section, size) <= end < TWO64 && start % 8 == 0
    requires SomeSet(bitset) && Works(start, size, begin, end) && ListsKept(sofar, keep, begin, end, start)
    requires forall j :: 0 <= j < size ==> (Unpack(bitset)[j] <==> keep(start + j))
    ensures ListsKept(results, keep, begin, end, start + size)
  {
    ReadExtends(bitset, start, keep, begin, end, sofar);
    var r := ReadBlocks(bitset, section, size, begin, end);
    results := sofar + r.blocks;
  }

  /** One section through the chain, in terms of its blocks. */
  method FindSection(hash: Hash, filters: seq<seq<Clause>>, rules: seq<Rule>, size: nat, section: nat,
                     fetch: Fetch, ghost bloomOf: nat -> Bloom, ghost start: nat)
    returns (found: bool, bitset: Bytes)
    requires 0 < size && size % 8 == 0 && start == SectionStart(section, size)
    requires Compiled(hash, filters, rules) && ServesFilters(hash, filters, fetch, bloomOf, size)
    ensures !found ==> forall n :: start <= n < start + size ==> !Keep(hash, filters, bloomOf)(n)
    ensures found ==> 8 * |bitset| == size && SomeSet(bitset)
    ensures found ==> forall j :: 0 <= j < size ==> (Unpack(bitset)[j] <==> Keep(hash, filters, bloomOf)(start + j))
  {
    ServesRules(hash, filters, rules, fetch, bloomOf, size, section);
    var res := MatchSection(fetch, section, size, rules, SectionBlooms(bloomOf, size, section));
    if res == null {
      NoneHere(hash, filters, rules, bloomOf, size, section, start);
      return false, [];
    }
    SomeBit(res[..]);
    BitsAreMatches(hash, filters, res[..], rules, bloomOf, size, section, start);
    return true, res[..];
  }

  /** One section: its matches are appended to the list. */
  method FilterSection(hash: Hash, filters: seq<seq<Clause>>, rules: seq<Rule>, size: nat, section: nat,
                       begin: nat, end: nat, fetch: Fetch, ghost bloomOf: nat -> Bloom, sofar: seq<nat>)
    returns (results: seq<nat>)
    requires 0 < size < TWO64 && size % 8 == 0 && begin < TWO64 && end < TWO64
    requires section <= SectionOf(end, size) && Readable(begin, end, size)
    requires Compiled(hash, filters, rules) && ServesFilters(hash, filters, fetch, bloomOf, size)
    requires ListsKept(sofar, Keep(hash, filters, bloomOf), begin, end, SectionStart(section, size))
    ensures ListsKept(results, Keep(hash, filters, bloomOf), begin, end, SectionStart(section + 1, size))
  {
    ghost var start, keep := SectionStart(section, size), Keep(hash, filters, bloomOf);
    StartAligned(section, size);
    var found, bitset := FindSection(hash, filters, rules, size, section, fetch, bloomOf, start);
    if found {
      SectionReadable(section, begin, end, size);
      results := ReadFound(bitset, section, size, begin, end, sofar, start, keep);
    } else {
      SectionSkipped(sofar, keep, begin, end, start, size);
      results := sofar;
    }
  }

  /**
   The whole matcher: exactly the blocks of the range whose bloom satisfies every rule,
   in strictly increasing order.
   */
  method FilterBlocks(hash: Hash, filters: seq<seq<Clause>>, size: nat, begin: nat, end: nat,
                      fetch: Fetch, ghost bloomOf: nat -> Bloom)
    returns (results: seq<nat>)
    requires 0 < size < TWO64 && size % 8 == 0 && begin < TWO64 && end < TWO64 && Readable(begin, end, size)
    requires ServesFilters(hash, filters, fetch, bloomOf, size)
    ensures Increasing(results)
    ensures forall n :: n in results <==> begin <= n <= end && BlockMatches(hash, filters, bloomOf(n))
  {
    var rules := BuildFilters(hash, filters);
    results := [];
    var s: nat := SectionOf(begin, size);
    OwnSection(begin, size);
    ghost var keep := Keep(hash, filters, bloomOf);
    while s <= SectionOf(end, size)
      invariant ListsKept(results, keep, begin, end, SectionStart(s, size))
      decreases SectionOf(end, size) - s
    {
      results := FilterSection(hash, filters, rules, size, s, begin, end, fetch, bloomOf, results);
      s := s + 1;
    }
    PastEnd(end, s, size);
    AllListed(results, hash, filters, bloomOf, begin, end, SectionStart(s, size));
  }

  lemma AllListed(results: seq<nat>, hash: Hash, filters: seq<seq<Clause>>, bloomOf: nat -> Bloom,
                  begin: nat, end: nat, bound: nat)
    requires end < bound && ListsKept(results, Keep(hash, filters, bloomOf), begin, end, bound)
    ensures forall n :: n in results <==> begin <= n <= end && BlockMatches(hash, filters, bloomOf(n))
  {
    var keep := Keep(hash, filters, bloomOf);
    forall n: nat
      ensures n in results <==> begin <= n <= end && BlockMatches(hash, filters, bloomOf(n))
    {
      assert keep(n) <==> BlockMatches(hash, filters, bloomOf(n));
    }
  }
}
