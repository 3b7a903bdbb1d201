/**
 Sub-protocol multiplexing (common/p2p/peer.go): which protocols two peers run and which
 message codes belong to which of them. Each side works it out alone, from its own
 protocols and the capabilities the other side announced.

 Offsets are unbounded integers here.
 */
module Protocols {

  datatype Protocol = Protocol(name: string, version: nat, length: nat)

  datatype Cap = Cap(name: string, version: nat)

  /** A running protocol and the first of its message codes. */
  datatype ProtoRW = ProtoRW(proto: Protocol, offset: int)

  const BASE_LENGTH := 16

  function CapOf(p: Protocol): Cap {
    Cap(p.name, p.version)
  }

  // ----------------------------------------------------------------- the order on caps

  predicate StringLess(a: string, b: string) {
    |b| > 0 && (|a| == 0 || a[0] < b[0] || (a[0] == b[0] && StringLess(a[1..], b[1..])))
  }

  predicate CapLess(a: Cap, b: Cap) {
    StringLess(a.name, b.name) || (a.name == b.name && a.version < b.version)
  }

  lemma {:induction false} StringOrder(a: string, b: string)
    ensures !(StringLess(a, b) && StringLess(b, a))
    ensures a == b ==> !StringLess(a, b)
    ensures a != b ==> StringLess(a, b) || StringLess(b, a)
  {
    if |a| > 0 && |b| > 0 && a[0] == b[0] {
      StringOrder(a[1..], b[1..]);
      assert a == [a[0]] + a[1..] && b == [b[0]] + b[1..];
    }
  }

  lemma {:induction false} StringTransitive(a: string, b: string, c: string)
    requires StringLess(a, b) && StringLess(b, c)
    ensures StringLess(a, c)
  {
    if |a| > 0 && a[0] == b[0] == c[0] {
      StringTransitive(a[1..], b[1..], c[1..]);
    }
  }

  lemma CapOrder(a: Cap, b: Cap)
    ensures !(CapLess(a, b) && CapLess(b, a))
    ensures a == b ==> !CapLess(a, b)
    ensures a != b ==> CapLess(a, b) || CapLess(b, a)
  {
    StringOrder(a.name, b.name);
  }

  lemma CapTransitive(a: Cap, b: Cap, c: Cap)
    requires !CapLess(b, a) && !CapLess(c, b)
    ensures !CapLess(c, a)
  {
    CapOrder(a, b);
    CapOrder(b, c);
    CapOrder(a, c);
    StringOrder(a.name, b.name);
    StringOrder(b.name, c.name);
    StringOrder(a.name, c.name);
    if StringLess(a.name, b.name) && StringLess(b.name, c.name) {
      StringTransitive(a.name, b.name, c.name);
    }
  }

  ghost predicate SortedCaps(cs: seq<Cap>) {
    forall i, j :: 0 <= i < j < |cs| ==> !CapLess(cs[j], cs[i])
  }

  // --------------------------------------------------------------------- sorting

  /** Where a capability goes: after the ones that are not above it. */
  function Place(cs: seq<Cap>, c: Cap): (i: nat)
    ensures i <= |cs|
    ensures forall k :: 0 <= k < i ==> !CapLess(c, cs[k])
    ensures i < |cs| ==> CapLess(c, cs[i])
  {
    if |cs| == 0 || CapLess(c, cs[0]) then 0 else 1 + Place(cs[1..], c)
  }

  function Insert(cs: seq<Cap>, c: Cap): seq<Cap> {
    var i := Place(cs, c);
    cs[..i] + [c] + cs[i..]
  }

  lemma InsertMultiset(cs: seq<Cap>, c: Cap)
    ensures multiset(Insert(cs, c)) == multiset(cs) + multiset{c}
  {
    var i := Place(cs, c);
    assert cs == cs[..i] + cs[i..];
  }

  /** What is left behind the place is not below the capability. */
  lemma PlaceBelow(cs: seq<Cap>, c: Cap, k: nat)
    requires SortedCaps(cs) && Place(cs, c) <= k < |cs|
    ensures !CapLess(cs[k], c)
  {
    var i := Place(cs, c);
    CapOrder(c, cs[i]);
    if k > i {
      CapTransitive(c, cs[i], cs[k]);
    }
  }

  lemma InsertSorted(cs: seq<Cap>, c: Cap)
    requires SortedCaps(cs)
    ensures SortedCaps(Insert(cs, c))
  {
    var i := Place(cs, c);
    var r := Insert(cs, c);
    forall a, b | 0 <= a < b < |r|
      ensures !CapLess(r[b], r[a])
    {
      if a == i {
        PlaceBelow(cs, c, b - 1);
      }
    }
  }

  function Sort(caps: seq<Cap>): seq<Cap>
    decreases |caps|
  {
    if |caps| == 0 then [] else Insert(Sort(caps[..|caps| - 1]), caps[|caps| - 1])
  }

  lemma {:induction false} SortSorts(caps: seq<Cap>)
    ensures SortedCaps(Sort(caps)) && multiset(Sort(caps)) == multiset(caps)
    decreases |caps|
  {
    if |caps| > 0 {
      var n := |caps| - 1;
      SortSorts(caps[..n]);
      InsertSorted(Sort(caps[..n]), caps[n]);
      InsertMultiset(Sort(caps[..n]), caps[n]);
      WithLast(caps);
    }
  }

  /** Any sorted arrangement of the same capabilities is this one, however it was arrived at. */
  lemma {:induction false} SortUnique(a: seq<Cap>, b: seq<Cap>)
    requires SortedCaps(a) && SortedCaps(b) && multiset(a) == multiset(b)
    ensures a == b
    decreases |a|
  {
    assert |a| == |multiset(a)| == |multiset(b)| == |b|;
    if |a| > 0 {
      SameLast(a, b);
      WithoutLast(a);
      WithoutLast(b);
      SortUnique(a[..|a| - 1], b[..|b| - 1]);
      Rejoin(a, b);
    }
  }

  lemma SameLast(a: seq<Cap>, b: seq<Cap>)
    requires SortedCaps(a) && SortedCaps(b) && multiset(a) == multiset(b) && |a| == |b| > 0
    ensures a[|a| - 1] == b[|b| - 1]
  {
    LastIsHighest(a, b);
    LastIsHighest(b, a);
    CapOrder(a[|a| - 1], b[|b| - 1]);
  }

  lemma Rejoin(a: seq<Cap>, b: seq<Cap>)
    requires |a| == |b| > 0 && a[|a| - 1] == b[|b| - 1] && a[..|a| - 1] == b[..|b| - 1]
    ensures a == b
  {
    assert a == a[..|a| - 1] + [a[|a| - 1]] && b == b[..|b| - 1] + [b[|b| - 1]];
  }

  lemma WithLast(a: seq<Cap>)
    requires |a| > 0
    ensures multiset(a) == multiset(a[..|a| - 1]) + multiset{a[|a| - 1]}
  {
    assert a == a[..|a| - 1] + [a[|a| - 1]];
  }

  lemma WithoutLast(a: seq<Cap>)
    requires |a| > 0
    ensures multiset(a[..|a| - 1]) == multiset(a) - multiset{a[|a| - 1]}
  {
    assert a == a[..|a| - 1] + [a[|a| - 1]];
  }

  lemma LastIsHighest(a: seq<Cap>, b: seq<Cap>)
    requires SortedCaps(a) && multiset(a) == multiset(b) && |a| == |b| > 0
    ensures !CapLess(a[|a| - 1], b[|b| - 1])
  {
    var x := b[|b| - 1];
    assert x in multiset(b);
    assert x in multiset(a);
    var i :| 0 <= i < |a| && a[i] == x;
    CapOrder(x, x);
  }

  /** Sorting by name and version. */
  method SortCaps(caps: seq<Cap>) returns (sorted: seq<Cap>)
    ensures sorted == Sort(caps)
  {
    sorted := [];
    for i := 0 to |caps|
      invariant sorted == Sort(caps[..i])
    {
      assert caps[..i + 1][..i] == caps[..i];
      sorted := Insert(sorted, caps[i]);
    }
    assert caps[..|caps|] == caps;
  }

  // --------------------------------------------------------------------- matching

  /** The first protocol that a capability names. */
  function FindProtocol(ps: seq<Protocol>, c: Cap): (r: seq<Protocol>)
    ensures |r| <= 1
    ensures |r| == 1 ==> r[0] in ps && CapOf(r[0]) == c
    ensures |r| == 0 ==> forall p :: p in ps ==> CapOf(p) != c
  {
    if |ps| == 0 then [] else if CapOf(ps[0]) == c then [ps[0]] else FindProtocol(ps[1..], c)
  }

  /** The protocols named by a list of capabilities, in the list's order. */
  function Shared(ps: seq<Protocol>, caps: seq<Cap>): seq<Protocol>
    decreases |caps|
  {
    if |caps| == 0 then [] else Shared(ps, caps[..|caps| - 1]) + FindProtocol(ps, caps[|caps| - 1])
  }

  datatype Layout = Layout(next: int, running: map<string, ProtoRW>)

  /** One match: an older version of the same protocol gives its codes back first. */
  function Place1(l: Layout, p: Protocol): Layout {
    var start := if p.name in l.running then l.next - l.running[p.name].proto.length else l.next;
    Layout(start + p.length, l.running[p.name := ProtoRW(p, start)])
  }

  function LayOut(ps: seq<Protocol>): Layout
    decreases |ps|
  {
    if |ps| == 0 then Layout(BASE_LENGTH, map[]) else Place1(LayOut(ps[..|ps| - 1]), ps[|ps| - 1])
  }

  // ---------------------------------------------------------------- what a layout means

  ghost predicate SortedProtocols(ps: seq<Protocol>) {
    forall i, j :: 0 <= i < j < |ps| ==> !CapLess(CapOf(ps[j]), CapOf(ps[i]))
  }

  predicate Covers(rw: ProtoRW, code: int) {
    rw.offset <= code < rw.offset + rw.proto.length
  }

  /** Running are exactly the named protocols, each in its highest version. */
  ghost predicate HighestVersions(ps: seq<Protocol>, running: map<string, ProtoRW>) {
    && (forall n :: n in running ==> running[n].proto in ps && running[n].proto.name == n)
    && forall k :: 0 <= k < |ps| ==> ps[k].name in running && ps[k].version <= running[ps[k].name].proto.version
  }

  /** Every code from the first free one up to the end belongs to some protocol. */
  ghost predicate Tiled(l: Layout) {
    forall code: int {:trigger Owned(l, code)} :: BASE_LENGTH <= code < l.next ==> Owned(l, code)
  }

  ghost predicate Owned(l: Layout, code: int) {
    exists n :: n in l.running && Covers(l.running[n], code)
  }

  /** Ranges are inside the space and follow each other in the order of the names. */
  ghost predicate Ordered(l: Layout) {
    && BASE_LENGTH <= l.next
    && (forall n :: n in l.running ==>
          BASE_LENGTH <= l.running[n].offset && l.running[n].offset + l.running[n].proto.length <= l.next)
    && forall m, n :: m in l.running && n in l.running && StringLess(m, n) ==>
         l.running[m].offset + l.running[m].proto.length <= l.running[n].offset
  }

  /** The last protocol matched has the last name and the last codes. */
  ghost predicate LastIsLast(ps: seq<Protocol>, l: Layout) {
    |ps| > 0 ==>
      var p := ps[|ps| - 1];
      && p.name in l.running && l.running[p.name] == ProtoRW(p, l.next - p.length)
      && forall n :: n in l.running ==> n == p.name || StringLess(n, p.name)
  }

  ghost predicate LayoutOk(ps: seq<Protocol>, l: Layout) {
    HighestVersions(ps, l.running) && Tiled(l) && Ordered(l) && LastIsLast(ps, l) && (|ps| == 0 ==> l.running == map[])
  }

  /** The next match has the last name again, or a new one after all the others. */
  lemma NextName(ps: seq<Protocol>, q: Protocol, l: Layout)
    requires SortedProtocols(ps + [q]) && HighestVersions(ps, l.running) && LastIsLast(ps, l) && (|ps| == 0 ==> l.running == map[])
    ensures q.name in l.running ==> |ps| > 0 && q.name == ps[|ps| - 1].name && ps[|ps| - 1].version <= q.version
    ensures forall n :: n in l.running ==> n == q.name || StringLess(n, q.name)
  {
    if |ps| > 0 {
      var p := ps[|ps| - 1];
      var s := ps + [q];
      assert !CapLess(CapOf(s[|ps|]), CapOf(s[|ps| - 1]));
      StringOrder(p.name, q.name);
      forall n | n in l.running
        ensures n == q.name || StringLess(n, q.name)
        ensures n == q.name ==> n == p.name
      {
        StringOrder(n, p.name);
        StringOrder(n, q.name);
        if StringLess(n, p.name) && StringLess(p.name, q.name) {
          StringTransitive(n, p.name, q.name);
        }
      }
    }
  }

  lemma PlaceHighest(ps: seq<Protocol>, q: Protocol, l: Layout)
    requires HighestVersions(ps, l.running)
    requires forall k :: 0 <= k < |ps| && ps[k].name == q.name ==> ps[k].version <= q.version
    ensures HighestVersions(ps + [q], Place1(l, q).running)
  {
  }

  /** A protocol's earlier versions are not above it. */
  lemma EarlierVersions(ps: seq<Protocol>, q: Protocol, k: nat)
    requires SortedProtocols(ps + [q]) && k < |ps| && ps[k].name == q.name
    ensures ps[k].version <= q.version
  {
    var s := ps + [q];
    assert !CapLess(CapOf(s[|ps|]), CapOf(s[k]));
  }

  lemma PlaceTiles(ps: seq<Protocol>, q: Protocol, l: Layout)
    requires Tiled(l) && LastIsLast(ps, l)
    requires q.name in l.running ==> |ps| > 0 && q.name == ps[|ps| - 1].name
    ensures Tiled(Place1(l, q))
  {
    var l' := Place1(l, q);
    forall code: int | BASE_LENGTH <= code < l'.next
      ensures Owned(l', code)
    {
      if Covers(l'.running[q.name], code) {
        assert Owned(l', code);
      } else {
        assert Owned(l, code);
        var n :| n in l.running && Covers(l.running[n], code);
        assert n in l'.running && l'.running[n] == l.running[n];
      }
    }
  }

  lemma PlaceOrders(ps: seq<Protocol>, q: Protocol, l: Layout)
    requires Ordered(l) && LastIsLast(ps, l)
    requires q.name in l.running ==> |ps| > 0 && q.name == ps[|ps| - 1].name
    requires forall n :: n in l.running ==> n == q.name || StringLess(n, q.name)
    ensures Ordered(Place1(l, q))
  {
    var l' := Place1(l, q);
    StringOrder(q.name, q.name);
    forall m, n | m in l'.running && n in l'.running && StringLess(m, n)
      ensures l'.running[m].offset + l'.running[m].proto.length <= l'.running[n].offset
    {
      StringOrder(m, n);
    }
  }

  lemma PlaceLast(ps: seq<Protocol>, q: Protocol, l: Layout)
    requires forall n :: n in l.running ==> n == q.name || StringLess(n, q.name)
    ensures LastIsLast(ps + [q], Place1(l, q))
  {
  }

  lemma PlaceKeeps(ps: seq<Protocol>, q: Protocol, l: Layout)
    requires LayoutOk(ps, l) && SortedProtocols(ps + [q])
    ensures LayoutOk(ps + [q], Place1(l, q))
  {
    NextName(ps, q, l);
    forall k | 0 <= k < |ps| && ps[k].name == q.name
      ensures ps[k].version <= q.version
    {
      EarlierVersions(ps, q, k);
    }
    PlaceHighest(ps, q, l);
    PlaceTiles(ps, q, l);
    PlaceOrders(ps, q, l);
    PlaceLast(ps, q, l);
  }

  lemma {:induction false} LayOutOk(ps: seq<Protocol>)
    requires SortedProtocols(ps)
    ensures LayoutOk(ps, LayOut(ps))
    decreases |ps|
  {
    if |ps| > 0 {
      var n := |ps| - 1;
      LayOutOk(ps[..n]);
      assert ps[..n] + [ps[n]] == ps;
      PlaceKeeps(ps[..n], ps[n], LayOut(ps[..n]));
    }
  }

  // ------------------------------------------------------------- matching capabilities

  /** What a peer with protocols `ps` runs when the other side announces `caps`. */
  function Match(ps: seq<Protocol>, caps: seq<Cap>): Layout {
    LayOut(Shared(ps, Sort(caps)))
  }

  method FindFirst(ps: seq<Protocol>, cap: Cap) returns (j: nat)
    ensures j <= |ps| && FindProtocol(ps, cap) == if j < |ps| then [ps[j]] else []
  {
    j := 0;
    while j < |ps| && CapOf(ps[j]) != cap
      invariant 0 <= j <= |ps| && FindProtocol(ps[j..], cap) == FindProtocol(ps, cap)
    {
      j := j + 1;
    }
  }

  lemma MatchStep(ps: seq<Protocol>, caps: seq<Cap>, i: nat)
    requires i < |caps|
    ensures var found := FindProtocol(ps, caps[i]);
            var l := LayOut(Shared(ps, caps[..i]));
            LayOut(Shared(ps, caps[..i + 1])) == if found == [] then l else Place1(l, found[0])
  {
    var before, found := Shared(ps, caps[..i]), FindProtocol(ps, caps[i]);
    assert caps[..i + 1][..i] == caps[..i];
    assert Shared(ps, caps[..i + 1]) == before + found;
    if found == [] {
      assert before + found == before;
    } else {
      assert (before + found)[..|before|] == before;
    }
  }

  /** A match takes the next codes, after reverting an older version's. */
  method Assign(next: int, running: map<string, ProtoRW>, proto: Protocol) returns (offset: int, result: map<string, ProtoRW>)
    ensures Layout(offset, result) == Place1(Layout(next, running), proto)
  {
    offset := next;
    if proto.name in running {
      offset := offset - running[proto.name].proto.length;
    }
    result := running[proto.name := ProtoRW(proto, offset)];
    offset := offset + proto.length;
  }

  /** The matching loop. */
  method MatchProtocols(ps: seq<Protocol>, caps: seq<Cap>) returns (l: Layout)
    ensures l == Match(ps, caps)
  {
    var sorted := SortCaps(caps);
    var offset: int := BASE_LENGTH;
    var result: map<string, ProtoRW> := map[];
    for i := 0 to |sorted|
      invariant Layout(offset, result) == LayOut(Shared(ps, sorted[..i]))
    {
      var cap := sorted[i];
      MatchStep(ps, sorted, i);
      var j := FindFirst(ps, cap);
      if j < |ps| {
        offset, result := Assign(offset, result, ps[j]);
      }
    }
    assert sorted[..|sorted|] == sorted;
    l := Layout(offset, result);
  }

  lemma {:induction false} SharedFrom(ps: seq<Protocol>, caps: seq<Cap>)
    ensures forall p :: p in Shared(ps, caps) ==> p in ps && CapOf(p) in caps
    decreases |caps|
  {
    if |caps| > 0 {
      SharedFrom(ps, caps[..|caps| - 1]);
    }
  }

  lemma {:induction false} SharedSorted(ps: seq<Protocol>, caps: seq<Cap>)
    requires SortedCaps(caps)
    ensures SortedProtocols(Shared(ps, caps))
    decreases |caps|
  {
    if |caps| > 0 {
      var n := |caps| - 1;
      var before := Shared(ps, caps[..n]);
      SharedSorted(ps, caps[..n]);
      SharedFrom(ps, caps[..n]);
      forall k | 0 <= k < |before|
        ensures !CapLess(caps[n], CapOf(before[k]))
      {
        assert before[k] in before;
        var c :| 0 <= c < n && caps[..n][c] == CapOf(before[k]);
        assert caps[c] == CapOf(before[k]);
      }
    }
  }

  /**
   For every list of protocols and every list of announced capabilities: the running
   protocols are the shared ones in their highest version, their code ranges do not
   overlap and fill the space from the base protocol's end without a gap.
   */
  lemma MatchTiles(ps: seq<Protocol>, caps: seq<Cap>)
    ensures var l := Match(ps, caps);
            && HighestVersions(Shared(ps, Sort(caps)), l.running)
            && Tiled(l) && Ordered(l)
            && forall code: int, m, n :: m in l.running && n in l.running && Covers(l.running[m], code) && Covers(l.running[n], code) ==> m == n
  {
    SortSorts(caps);
    SharedSorted(ps, Sort(caps));
    LayOutOk(Shared(ps, Sort(caps)));
    var l := Match(ps, caps);
    forall code: int, m, n | m in l.running && n in l.running && Covers(l.running[m], code) && Covers(l.running[n], code)
      ensures m == n
    {
      StringOrder(m, n);
    }
  }

  // ----------------------------------------------------------------- two peers agree

  function CapsOf(ps: seq<Protocol>): (caps: seq<Cap>)
    ensures |caps| == |ps|
  {
    seq(|ps|, i requires 0 <= i < |ps| => CapOf(ps[i]))
  }

  ghost predicate NoRepeats(caps: seq<Cap>) {
    forall i, j :: 0 <= i < j < |caps| ==> caps[i] != caps[j]
  }

  lemma {:induction false} NoRepeatsCount(caps: seq<Cap>, c: Cap)
    requires NoRepeats(caps)
    ensures multiset(caps)[c] <= 1
    decreases |caps|
  {
    if |caps| > 0 {
      var n := |caps| - 1;
      NoRepeatsCount(caps[..n], c);
      assert caps == caps[..n] + [caps[n]];
      assert caps[n] !in caps[..n];
    }
  }

  lemma CountNoRepeats(caps: seq<Cap>)
    requires forall c :: multiset(caps)[c] <= 1
    ensures NoRepeats(caps)
  {
    forall i, j | 0 <= i < j < |caps|
      ensures caps[i] != caps[j]
    {
      assert caps == caps[..j] + [caps[j]] + caps[j + 1..];
      assert caps[..j][i] == caps[i];
      assert caps[i] in multiset(caps[..j]);
      assert multiset(caps)[caps[j]] >= multiset(caps[..j])[caps[j]] + 1;
    }
  }

  lemma SortNoRepeats(caps: seq<Cap>)
    requires NoRepeats(caps)
    ensures NoRepeats(Sort(caps))
  {
    SortSorts(caps);
    forall c
      ensures multiset(Sort(caps))[c] <= 1
    {
      NoRepeatsCount(caps, c);
    }
    CountNoRepeats(Sort(caps));
  }

  ghost predicate StrictlySorted(ps: seq<Protocol>) {
    forall i, j :: 0 <= i < j < |ps| ==> CapLess(CapOf(ps[i]), CapOf(ps[j]))
  }

  lemma {:induction false} SharedStrict(ps: seq<Protocol>, caps: seq<Cap>)
    requires SortedCaps(caps) && NoRepeats(caps)
    ensures StrictlySorted(Shared(ps, caps))
    decreases |caps|
  {
    if |caps| > 0 {
      var n := |caps| - 1;
      var before := Shared(ps, caps[..n]);
      SharedStrict(ps, caps[..n]);
      SharedFrom(ps, caps[..n]);
      forall k | 0 <= k < |before|
        ensures CapLess(CapOf(before[k]), caps[n])
      {
        assert before[k] in before;
        var c :| 0 <= c < n && caps[..n][c] == CapOf(before[k]);
        assert caps[c] == CapOf(before[k]);
        CapOrder(caps[c], caps[n]);
      }
    }
  }

  /** Everything of ours that is announced is matched. */
  lemma {:induction false} SharedAll(ps: seq<Protocol>, caps: seq<Cap>, p: Protocol)
    requires NoRepeats(CapsOf(ps)) && p in ps && CapOf(p) in caps
    ensures p in Shared(ps, caps)
    decreases |caps|
  {
    var n := |caps| - 1;
    if CapOf(p) == caps[n] {
      FindUnique(ps, p);
    } else {
      assert caps == caps[..n] + [caps[n]];
      SharedAll(ps, caps[..n], p);
    }
  }

  lemma FindUnique(ps: seq<Protocol>, p: Protocol)
    requires NoRepeats(CapsOf(ps)) && p in ps
    ensures FindProtocol(ps, CapOf(p)) == [p]
  {
    var r := FindProtocol(ps, CapOf(p));
    var i :| 0 <= i < |ps| && ps[i] == p;
    assert |r| == 1;
    var j :| 0 <= j < |ps| && ps[j] == r[0];
    var caps := CapsOf(ps);
    assert caps[i] == caps[j];
  }

  lemma {:induction false} StrictUnique(a: seq<Protocol>, b: seq<Protocol>)
    requires StrictlySorted(a) && StrictlySorted(b) && forall p :: p in a <==> p in b
    ensures a == b
    decreases |a|
  {
    SameEmpty(a, b);
    if |a| > 0 {
      var n, m := |a| - 1, |b| - 1;
      LastAbove(a, b);
      LastAbove(b, a);
      CapOrder(CapOf(a[n]), CapOf(b[m]));
      CapOrder(CapOf(a[n]), CapOf(a[n]));
      forall p
        ensures p in a[..n] <==> p in b[..m]
      {
        FrontOf(a, p);
        FrontOf(b, p);
      }
      StrictUnique(a[..n], b[..m]);
      assert a == a[..n] + [a[n]] && b == b[..m] + [b[m]];
    }
  }

  lemma SameEmpty(a: seq<Protocol>, b: seq<Protocol>)
    requires forall p :: p in a <==> p in b
    ensures |a| == 0 <==> |b| == 0
  {
    if |a| > 0 {
      assert a[0] in b;
    }
    if |b| > 0 {
      assert b[0] in a;
    }
  }

  /** The last element of one is the last of the other, or below it. */
  lemma LastAbove(a: seq<Protocol>, b: seq<Protocol>)
    requires StrictlySorted(b) && |a| > 0 && |b| > 0 && forall p :: p in a ==> p in b
    ensures a[|a| - 1] == b[|b| - 1] || CapLess(CapOf(a[|a| - 1]), CapOf(b[|b| - 1]))
  {
    assert a[|a| - 1] in a;
    assert a[|a| - 1] in b;
  }

  lemma FrontOf(a: seq<Protocol>, p: Protocol)
    requires StrictlySorted(a) && |a| > 0
    ensures p in a[..|a| - 1] <==> p in a && p != a[|a| - 1]
  {
    var n := |a| - 1;
    assert a == a[..n] + [a[n]];
    if p in a[..n] {
      var i :| 0 <= i < n && a[i] == p;
      CapOrder(CapOf(a[i]), CapOf(a[n]));
    }
  }

  /** The two sides have the same protocol behind every shared name and version. */
  ghost predicate AgreeOnLengths(pa: seq<Protocol>, pb: seq<Protocol>) {
    forall p, q :: p in pa && q in pb && CapOf(p) == CapOf(q) ==> p == q
  }

  lemma SharedByBoth(pa: seq<Protocol>, pb: seq<Protocol>, p: Protocol)
    requires NoRepeats(CapsOf(pa)) && AgreeOnLengths(pa, pb)
    ensures p in Shared(pa, Sort(CapsOf(pb))) <==> p in pa && p in pb
  {
    var caps := CapsOf(pb);
    SortSorts(caps);
    SharedFrom(pa, Sort(caps));
    if p in Shared(pa, Sort(caps)) {
      assert CapOf(p) in multiset(Sort(caps));
      assert CapOf(p) in multiset(caps);
      var k :| 0 <= k < |caps| && caps[k] == CapOf(p);
      assert pb[k] in pb;
    }
    if p in pa && p in pb {
      var k :| 0 <= k < |pb| && pb[k] == p;
      assert caps[k] == CapOf(p);
      assert CapOf(p) in multiset(caps);
      assert CapOf(p) in multiset(Sort(caps));
      SharedAll(pa, Sort(caps), p);
    }
  }

  /** Both sides arrive at the same protocols, versions and offsets. */
  lemma Agreement(pa: seq<Protocol>, pb: seq<Protocol>)
    requires NoRepeats(CapsOf(pa)) && NoRepeats(CapsOf(pb)) && AgreeOnLengths(pa, pb)
    ensures Match(pa, CapsOf(pb)) == Match(pb, CapsOf(pa))
  {
    var a, b := Shared(pa, Sort(CapsOf(pb))), Shared(pb, Sort(CapsOf(pa)));
    SortSorts(CapsOf(pa));
    SortSorts(CapsOf(pb));
    SortNoRepeats(CapsOf(pa));
    SortNoRepeats(CapsOf(pb));
    SharedStrict(pa, Sort(CapsOf(pb)));
    SharedStrict(pb, Sort(CapsOf(pa)));
    forall p
      ensures p in a <==> p in b
    {
      SharedByBoth(pa, pb, p);
      SharedByBoth(pb, pa, p);
    }
    StrictUnique(a, b);
  }

  // ------------------------------------------------------------------ message codes

  datatype Dispatch = Base | SubProtocol(rw: ProtoRW) | OutOfRange

  /** The running protocol responsible for a code, whatever order they are looked through in. */
  method GetProto(running: map<string, ProtoRW>, code: int) returns (found: bool, rw: ProtoRW)
    ensures found <==> exists n :: n in running && Covers(running[n], code)
    ensures found ==> exists n :: n in running && running[n] == rw && Covers(rw, code)
  {
    var names := running.Keys;
    rw := ProtoRW(Protocol("", 0, 0), 0);
    while names != {}
      invariant names <= running.Keys
      invariant forall n :: n in running && n !in names ==> !Covers(running[n], code)
      decreases names
    {
      var n :| n in names;
      if Covers(running[n], code) {
        return true, running[n];
      }
      names := names - {n};
    }
    found := false;
  }

  /** Where an incoming message goes. */
  method Handle(l: Layout, code: nat) returns (d: Dispatch)
    ensures code < BASE_LENGTH ==> d == Base
    ensures code >= BASE_LENGTH ==> (d == OutOfRange <==> !Owned(l, code))
    ensures code >= BASE_LENGTH && Owned(l, code) ==>
      exists n :: n in l.running && d == SubProtocol(l.running[n]) && Covers(l.running[n], code)
  {
    if code < BASE_LENGTH {
      return Base;
    }
    var found, rw := GetProto(l.running, code);
    d := if found then SubProtocol(rw) else OutOfRange;
  }

  datatype Written = Refused | Sent(code: int)

  /** A sub-protocol's code on the wire. */
  function WriteCode(rw: ProtoRW, code: nat): Written {
    if code >= rw.proto.length then Refused else Sent(code + rw.offset)
  }

  /** A wire code as its sub-protocol sees it. */
  function ReadCode(rw: ProtoRW, code: int): int {
    code - rw.offset
  }

  /** A message leaves a sub-protocol on one side and reaches the same one on the other, with the same code. */
  method Transfer(pa: seq<Protocol>, pb: seq<Protocol>, name: string, code: nat) returns (arrived: Dispatch, read: int)
    requires NoRepeats(CapsOf(pa)) && NoRepeats(CapsOf(pb)) && AgreeOnLengths(pa, pb)
    requires name in Match(pa, CapsOf(pb)).running && code < Match(pa, CapsOf(pb)).running[name].proto.length
    ensures arrived == SubProtocol(Match(pa, CapsOf(pb)).running[name]) && read == code
  {
    Agreement(pa, pb);
    MatchTiles(pa, CapsOf(pb));
    var here := MatchProtocols(pa, CapsOf(pb));
    var there := MatchProtocols(pb, CapsOf(pa));
    var sent := WriteCode(here.running[name], code);
    assert Covers(here.running[name], sent.code);
    assert Owned(there, sent.code);
    arrived := Handle(there, sent.code);
    read := ReadCode(arrived.rw, sent.code);
  }

  /** A code reaches a sub-protocol exactly when it lies between the base protocol's end and the total. */
  lemma CodeInRange(ps: seq<Protocol>, caps: seq<Cap>, code: nat)
    ensures Owned(Match(ps, caps), code) <==> BASE_LENGTH <= code < Match(ps, caps).next
  {
    MatchTiles(ps, caps);
  }
}
