/**
 The dial scheduler (common/p2p/dial.go): which nodes to dial next, under a quota for
 dynamic dials, with a history that keeps nodes from being dialed again too soon.

 Time is an integer number of seconds. The order of the history heap is left out: the
 history is the collection of its entries.
 */
module Dialer {

  datatype Option<T> = None | Some(value: T)

  datatype Node = Node(id: nat, ip: nat)

  datatype Flag = Dynamic | Static

  datatype DialTask = DialTask(flag: Flag, dest: Node)

  datatype PastDial = PastDial(id: nat, exp: int)

  /** Parts of the configuration: the dynamic quota, our own id and the network whitelist, if any. */
  datatype Config = Config(maxDyn: int, self: Option<nat>, whitelist: Option<set<nat>>)

  const HISTORY_EXPIRATION := 30
  const FALLBACK_INTERVAL := 20

  // ------------------------------------------------------------------- the history

  function Expire(h: seq<PastDial>, now: int): seq<PastDial> {
    if |h| == 0 then [] else (if h[0].exp < now then [] else [h[0]]) + Expire(h[1..], now)
  }

  predicate InHistory(h: seq<PastDial>, id: nat) {
    exists i :: 0 <= i < |h| && h[i].id == id
  }

  ghost predicate UniqueIds(h: seq<PastDial>) {
    forall i, j :: 0 <= i < j < |h| ==> h[i].id != h[j].id
  }

  /** Expiring keeps exactly the entries that are not past. */
  lemma {:induction false} ExpireKeeps(h: seq<PastDial>, now: int)
    ensures forall e :: e in Expire(h, now) <==> e in h && e.exp >= now
    ensures UniqueIds(h) ==> UniqueIds(Expire(h, now))
  {
    if |h| > 0 {
      ExpireKeeps(h[1..], now);
      var rest := Expire(h[1..], now);
      assert h == [h[0]] + h[1..];
      if UniqueIds(h) {
        forall j | 0 <= j < |rest|
          ensures rest[j].id != h[0].id
        {
          assert rest[j] in rest;
          assert rest[j] in h[1..];
          var k :| 0 <= k < |h[1..]| && h[1..][k] == rest[j];
          assert h[k + 1] == rest[j];
        }
      }
    }
  }

  lemma {:induction false} ExpireAppend(a: seq<PastDial>, b: seq<PastDial>, now: int)
    ensures Expire(a + b, now) == Expire(a, now) + Expire(b, now)
  {
    if |a| == 0 {
      assert a + b == b;
    } else {
      ExpireAppend(a[1..], b, now);
      assert (a + b)[1..] == a[1..] + b;
      var head := if a[0].exp < now then [] else [a[0]];
      assert (head + Expire(a[1..], now)) + Expire(b, now) == head + (Expire(a[1..], now) + Expire(b, now));
    }
  }

  /** Taking out a past entry changes nothing about what is left. */
  lemma ExpirePop(h: seq<PastDial>, i: nat, now: int)
    requires i < |h| && h[i].exp < now
    ensures Expire(h[..i] + h[i + 1..], now) == Expire(h, now)
  {
    assert h == h[..i] + ([h[i]] + h[i + 1..]);
    ExpireAppend(h[..i], [h[i]] + h[i + 1..], now);
    ExpireAppend([h[i]], h[i + 1..], now);
    ExpireAppend(h[..i], h[i + 1..], now);
    assert Expire([h[i]], now) == [];
  }

  lemma {:induction false} NothingPast(h: seq<PastDial>, now: int)
    requires forall i :: 0 <= i < |h| ==> h[i].exp >= now
    ensures Expire(h, now) == h
  {
    if |h| > 0 {
      NothingPast(h[1..], now);
    }
  }

  /** An entry that expires first. */
  ghost predicate IsMin(h: seq<PastDial>, e: PastDial) {
    e in h && forall i :: 0 <= i < |h| ==> e.exp <= h[i].exp
  }

  /** Entries of an id go away. */
  function RemoveId(h: seq<PastDial>, id: nat): seq<PastDial> {
    if |h| == 0 then [] else if h[0].id == id then h[1..] else [h[0]] + RemoveId(h[1..], id)
  }

  lemma {:induction false} RemoveAt(h: seq<PastDial>, id: nat, i: nat)
    requires i <= |h| && (forall k :: 0 <= k < i ==> h[k].id != id) && (i < |h| ==> h[i].id == id)
    ensures RemoveId(h, id) == if i < |h| then h[..i] + h[i + 1..] else h
  {
    if i > 0 {
      RemoveAt(h[1..], id, i - 1);
    }
  }

  lemma {:induction false} RemoveKeeps(h: seq<PastDial>, id: nat)
    requires UniqueIds(h)
    ensures UniqueIds(RemoveId(h, id))
    ensures forall e :: e in RemoveId(h, id) <==> e in h && e.id != id
  {
    if |h| > 0 {
      assert h == [h[0]] + h[1..];
      RemoveKeeps(h[1..], id);
      var rest := RemoveId(h[1..], id);
      forall j | 0 <= j < |h[1..]|
        ensures h[1..][j].id != h[0].id
      {
        assert h[1..][j] == h[j + 1];
      }
      if h[0].id != id {
        forall j | 0 <= j < |rest|
          ensures rest[j].id != h[0].id
        {
          assert rest[j] in rest;
        }
      }
    }
  }

  // -------------------------------------------------------------- dial candidates

  datatype Check = Ok | AlreadyDialing | AlreadyConnected | IsSelf | NotWhitelisted | RecentlyDialed

  predicate Whitelisted(cfg: Config, n: Node) {
    cfg.whitelist.None? || n.ip in cfg.whitelist.value
  }

  lemma HistoryAppend(h: seq<PastDial>, e: PastDial, id: nat)
    ensures InHistory(h + [e], id) <==> InHistory(h, id) || id == e.id
  {
    assert (h + [e])[|h|] == e;
    assert forall i :: 0 <= i < |h| ==> (h + [e])[i] == h[i];
  }

  function CheckDial(cfg: Config, dialing: map<nat, Flag>, connected: set<nat>, h: seq<PastDial>, n: Node): Check {
    if n.id in dialing then AlreadyDialing
    else if n.id in connected then AlreadyConnected
    else if cfg.self == Some(n.id) then IsSelf
    else if !Whitelisted(cfg, n) then NotWhitelisted
    else if InHistory(h, n.id) then RecentlyDialed
    else Ok
  }

  // ---------------------------------------------------------------- new dial tasks

  /** The dialer's fields. */
  datatype State = State(
    dialing: map<nat, Flag>, statics: map<nat, Node>, hist: seq<PastDial>,
    lookupRunning: bool, lookupBuf: seq<Node>, bootnodes: seq<Node>, start: Option<int>)

  /** What one round of scheduling comes up with. */
  datatype Batch = Batch(dials: seq<DialTask>, discover: bool, wait: Option<int>)

  function DynCount(ts: seq<DialTask>): nat
    decreases |ts|
  {
    if |ts| == 0 then 0 else DynCount(ts[..|ts| - 1]) + if ts[|ts| - 1].flag == Dynamic then 1 else 0
  }

  function DynIds(dialing: map<nat, Flag>): set<nat> {
    set id | id in dialing && dialing[id] == Dynamic
  }

  /** New dials have distinct ids that were not being dialed; now they are, and nothing else changed. */
  ghost predicate Launched(dialing: map<nat, Flag>, dialing': map<nat, Flag>, ts: seq<DialTask>) {
    && (forall k :: 0 <= k < |ts| ==>
          ts[k].dest.id !in dialing && ts[k].dest.id in dialing' && dialing'[ts[k].dest.id] == ts[k].flag)
    && (forall j, k :: 0 <= j < k < |ts| ==> ts[j].dest.id != ts[k].dest.id)
    && (forall id :: id in dialing ==> id in dialing' && dialing'[id] == dialing[id])
    && (forall id :: id in dialing' && id !in dialing ==> exists k :: 0 <= k < |ts| && ts[k].dest.id == id)
  }

  /** Every new dial was a good candidate. */
  ghost predicate Eligible(cfg: Config, dialing: map<nat, Flag>, connected: set<nat>, h: seq<PastDial>, ts: seq<DialTask>) {
    forall k :: 0 <= k < |ts| ==> CheckDial(cfg, dialing, connected, h, ts[k].dest) == Ok
  }

  ghost predicate StaticOk(statics: map<nat, Node>) {
    forall id :: id in statics ==> statics[id].id == id
  }

  /** An eligible static node is dialed; one that can never be dialed is forgotten. */
  ghost predicate StaticServed(cfg: Config, dialing: map<nat, Flag>, connected: set<nat>, h: seq<PastDial>,
                               statics: map<nat, Node>, statics': map<nat, Node>, ts: seq<DialTask>, id: nat)
    requires id in statics
  {
    var c := CheckDial(cfg, dialing, connected, h, statics[id]);
    && (c == Ok ==> DialTask(Static, statics[id]) in ts)
    && (id in statics' <==> c != IsSelf && c != NotWhitelisted)
    && (id in statics' ==> statics'[id] == statics[id])
  }

  ghost predicate StaticsServed(cfg: Config, dialing: map<nat, Flag>, connected: set<nat>, h: seq<PastDial>,
                                statics: map<nat, Node>, statics': map<nat, Node>, ts: seq<DialTask>) {
    && (forall id :: id in statics ==> StaticServed(cfg, dialing, connected, h, statics, statics', ts, id))
    && (forall id :: id in statics' ==> id in statics)
  }

  function Need(cfg: Config, d: State, dynPeers: set<nat>): int {
    cfg.maxDyn - |dynPeers| - |DynIds(d.dialing)|
  }

  /** The dials of one round: history expired, statics served, candidates tried within the quota. */
  ghost predicate DialRound(cfg: Config, d: State, d': State, connected: set<nat>, now: int, ts: seq<DialTask>, quota: int) {
    && d'.hist == Expire(d.hist, now)
    && Launched(d.dialing, d'.dialing, ts)
    && Eligible(cfg, d.dialing, connected, d'.hist, ts)
    && StaticsServed(cfg, d.dialing, connected, d'.hist, d.statics, d'.statics, ts)
    && (DynCount(ts) == 0 || DynCount(ts) <= quota)
    && (exists k :: 0 <= k <= |d.lookupBuf| && d'.lookupBuf == d.lookupBuf[k..])
    && multiset(d'.bootnodes) == multiset(d.bootnodes)
  }

  /** A lookup is started when the buffer does not cover the rest of the quota, and none is running. */
  ghost predicate LookupRound(d: State, d': State, rest: int, discover: bool) {
    && (discover <==> !d.lookupRunning && |d'.lookupBuf| < rest)
    && d'.lookupRunning == (d.lookupRunning || discover)
  }

  /** With nothing else to do, a timer runs until the first history entry expires. */
  ghost predicate WaitRound(h: seq<PastDial>, nRunning: nat, now: int, b: Batch) {
    && (b.wait.Some? <==> nRunning == 0 && b.dials == [] && !b.discover && h != [])
    && (b.wait.Some? ==> exists e :: IsMin(h, e) && b.wait.value == e.exp - now)
  }

  /** One round of scheduling. */
  ghost predicate NewTasks(cfg: Config, d: State, d': State, connected: set<nat>, dynPeers: set<nat>, nRunning: nat, now: int, b: Batch) {
    && d'.start == (if d.start.None? then Some(now) else d.start)
    && DialRound(cfg, d, d', connected, now, b.dials, Need(cfg, d, dynPeers))
    && LookupRound(d, d', Need(cfg, d, dynPeers) - DynCount(b.dials), b.discover)
    && WaitRound(d'.hist, nRunning, now, b)
  }

  // ------------------------------------------------------------ adding dials one by one

  lemma LaunchMore(dialing: map<nat, Flag>, now: map<nat, Flag>, ts: seq<DialTask>, t: DialTask)
    requires Launched(dialing, now, ts) && t.dest.id !in now
    ensures Launched(dialing, now[t.dest.id := t.flag], ts + [t])
  {
    var now', ts' := now[t.dest.id := t.flag], ts + [t];
    forall id | id in now' && id !in dialing
      ensures exists k :: 0 <= k < |ts'| && ts'[k].dest.id == id
    {
      if id == t.dest.id {
        assert ts'[|ts|].dest.id == id;
      } else {
        var k :| 0 <= k < |ts| && ts[k].dest.id == id;
        assert ts'[k].dest.id == id;
      }
    }
  }

  lemma EligibleMore(cfg: Config, dialing: map<nat, Flag>, now: map<nat, Flag>, connected: set<nat>, h: seq<PastDial>, ts: seq<DialTask>, t: DialTask)
    requires Eligible(cfg, dialing, connected, h, ts) && Launched(dialing, now, ts)
    requires CheckDial(cfg, now, connected, h, t.dest) == Ok
    ensures Eligible(cfg, dialing, connected, h, ts + [t])
  {
  }

  lemma DynMore(ts: seq<DialTask>, t: DialTask)
    ensures DynCount(ts + [t]) == DynCount(ts) + if t.flag == Dynamic then 1 else 0
  {
    assert (ts + [t])[..|ts|] == ts;
  }

  /** The dials so far, and the quota they leave. */
  ghost predicate Progress(cfg: Config, dialing: map<nat, Flag>, now: map<nat, Flag>, connected: set<nat>, h: seq<PastDial>,
                           ts: seq<DialTask>, quota: int, need: int) {
    && Launched(dialing, now, ts)
    && Eligible(cfg, dialing, connected, h, ts)
    && DynCount(ts) + need == quota
    && (DynCount(ts) == 0 || need >= 0)
  }

  lemma ServedStays(cfg: Config, dialing: map<nat, Flag>, connected: set<nat>, h: seq<PastDial>, all: map<nat, Node>,
                    statics: map<nat, Node>, statics': map<nat, Node>, ts: seq<DialTask>, ts': seq<DialTask>, id: nat)
    requires id in all && StaticServed(cfg, dialing, connected, h, all, statics, ts, id) && ts <= ts'
    requires (id in statics' <==> id in statics) && (id in statics' ==> statics'[id] == statics[id])
    ensures StaticServed(cfg, dialing, connected, h, all, statics', ts', id)
  {
    var n := all[id];
    if DialTask(Static, n) in ts {
      var k :| 0 <= k < |ts| && ts[k] == DialTask(Static, n);
      assert ts'[k] == ts[k];
    }
  }

  class DialState {
    const cfg: Config
    var dialing: map<nat, Flag>
    var statics: map<nat, Node>
    var hist: seq<PastDial>
    var lookupRunning: bool
    var lookupBuf: seq<Node>
    var bootnodes: seq<Node>
    var start: Option<int>

    ghost function View(): State
      reads this
    {
      State(dialing, statics, hist, lookupRunning, lookupBuf, bootnodes, start)
    }

    constructor (cfg: Config, staticNodes: seq<Node>, bootnodes: seq<Node>)
      ensures this.cfg == cfg && dialing == map[] && hist == [] && !lookupRunning && lookupBuf == [] && start == None
      ensures this.bootnodes == bootnodes && StaticOk(statics)
      ensures forall i :: 0 <= i < |staticNodes| ==> staticNodes[i].id in statics
    {
      this.cfg := cfg;
      this.bootnodes := bootnodes;
      dialing, hist, lookupRunning, lookupBuf, start := map[], [], false, [], None;
      statics := map[];
      new;
      for i := 0 to |staticNodes|
        invariant StaticOk(statics) && forall j :: 0 <= j < i ==> staticNodes[j].id in statics
        invariant dialing == map[] && hist == [] && !lookupRunning && lookupBuf == [] && start == None && this.bootnodes == bootnodes
      {
        AddStatic(staticNodes[i]);
      }
    }

    method AddStatic(n: Node)
      modifies this`statics
      ensures statics == old(statics)[n.id := n]
    {
      statics := statics[n.id := n];
    }

    method RemoveStatic(n: Node)
      modifies this`statics, this`hist
      ensures statics == old(statics) - {n.id} && hist == RemoveId(old(hist), n.id)
    {
      statics := statics - {n.id};
      var i := FindHistory(n.id);
      if i < |hist| {
        hist := hist[..i] + hist[i + 1..];
      }
    }

    /** The entry of an id, or the end of the history. */
    method FindHistory(id: nat) returns (i: nat)
      ensures i <= |hist|
      ensures RemoveId(hist, id) == if i < |hist| then hist[..i] + hist[i + 1..] else hist
    {
      i := 0;
      while i < |hist| && hist[i].id != id
        invariant 0 <= i <= |hist| && forall k :: 0 <= k < i ==> hist[k].id != id
      {
        i := i + 1;
      }
      RemoveAt(hist, id, i);
    }

    /** A finished dial is recorded for half a minute, which keeps its node and no other from being dialed. */
    method DialDone(t: DialTask, now: int)
      modifies this`hist, this`dialing
      ensures hist == old(hist) + [PastDial(t.dest.id, now + HISTORY_EXPIRATION)] && dialing == old(dialing) - {t.dest.id}
      ensures forall c: set<nat>, n: Node ::
        if n.id == t.dest.id then CheckDial(cfg, dialing, c, hist, n) != Ok
        else CheckDial(cfg, dialing, c, hist, n) == CheckDial(cfg, old(dialing), c, old(hist), n)
    {
      var e := PastDial(t.dest.id, now + HISTORY_EXPIRATION);
      forall id: nat ensures InHistory(hist + [e], id) <==> InHistory(hist, id) || id == t.dest.id {
        HistoryAppend(hist, e, id);
      }
      hist := hist + [e];
      dialing := dialing - {t.dest.id};
    }

    method LookupDone(results: seq<Node>)
      modifies this`lookupRunning, this`lookupBuf
      ensures !lookupRunning && lookupBuf == old(lookupBuf) + results
    {
      lookupRunning := false;
      lookupBuf := lookupBuf + results;
    }

    method AddDial(flag: Flag, n: Node, connected: set<nat>, ts: seq<DialTask>, need: int, ghost before: map<nat, Flag>, ghost quota: int)
      returns (ts': seq<DialTask>, need': int)
      requires Progress(cfg, before, dialing, connected, hist, ts, quota, need) && (flag == Dynamic ==> need > 0)
      modifies this`dialing
      ensures Progress(cfg, before, dialing, connected, hist, ts', quota, need')
      ensures need - (if flag == Dynamic then 1 else 0) <= need' <= need
      ensures ts <= ts'
      ensures CheckDial(cfg, old(dialing), connected, hist, n) == Ok ==>
        ts' == ts + [DialTask(flag, n)] && dialing == old(dialing)[n.id := flag]
      ensures CheckDial(cfg, old(dialing), connected, hist, n) != Ok ==> ts' == ts && dialing == old(dialing)
    {
      ts', need' := ts, need;
      if CheckDial(cfg, dialing, connected, hist, n) != Ok {
        return;
      }
      var t := DialTask(flag, n);
      LaunchMore(before, dialing, ts, t);
      EligibleMore(cfg, before, dialing, connected, hist, ts, t);
      DynMore(ts, t);
      dialing := dialing[n.id := flag];
      ts' := ts + [t];
      if flag == Dynamic {
        need' := need - 1;
      }
    }
  
    /** One static node. */
    method DialStatic(id: nat, connected: set<nat>, ts: seq<DialTask>, need: int, ghost before: map<nat, Flag>, ghost all: map<nat, Node>)
      returns (ts': seq<DialTask>)
      requires id in statics && id in all && statics[id] == all[id] && all[id].id == id && (id in dialing <==> id in before)
      requires Progress(cfg, before, dialing, connected, hist, ts, need, need)
      modifies this`dialing, this`statics
      ensures Progress(cfg, before, dialing, connected, hist, ts', need, need) && ts <= ts'
      ensures StaticServed(cfg, before, connected, hist, all, statics, ts', id)
      ensures statics == old(statics) || statics == old(statics) - {id}
      ensures forall i :: i != id ==> (i in dialing <==> i in old(dialing))
    {
      var n := statics[id];
      var c := CheckDial(cfg, dialing, connected, hist, n);
      ts' := ts;
      if c == NotWhitelisted || c == IsSelf {
        statics := statics - {n.id};
      } else if c == Ok {
        var left;
        ts', left := AddDial(Static, n, connected, ts, need, before, need);
        assert ts'[|ts|] == DialTask(Static, n);
      }
    }

    /** Dials for the static nodes that are not connected, in any order. */
    method DialStatics(connected: set<nat>, need: int) returns (ts: seq<DialTask>)
      requires StaticOk(statics)
      modifies this`dialing, this`statics
      ensures Progress(cfg, old(dialing), dialing, connected, hist, ts, need, need)
      ensures StaticsServed(cfg, old(dialing), connected, hist, old(statics), statics, ts)
    {
      ghost var before, all := dialing, statics;
      var ids := statics.Keys;
      ts := [];
      while ids != {}
        invariant ids <= all.Keys
        invariant Progress(cfg, before, dialing, connected, hist, ts, need, need)
        invariant forall id :: id in ids ==> id in statics && statics[id] == all[id] && (id in dialing <==> id in before)
        invariant forall id :: id in all && id !in ids ==> StaticServed(cfg, before, connected, hist, all, statics, ts, id)
        invariant forall id :: id in statics ==> id in all
        decreases ids
      {
        var id :| id in ids;
        ghost var ts0, statics0 := ts, statics;
        ts := DialStatic(id, connected, ts, need, before, all);
        forall i | i in all && i !in ids
          ensures StaticServed(cfg, before, connected, hist, all, statics, ts, i)
        {
          ServedStays(cfg, before, connected, hist, all, statics0, statics, ts0, ts, i);
        }
        ids := ids - {id};
      }
    }

    /** With no peers at all for some time, the next bootnode is tried. */
    method DialBootnode(connected: set<nat>, now: int, ts: seq<DialTask>, need: int, ghost before: map<nat, Flag>, ghost quota: int)
      returns (ts': seq<DialTask>, need': int)
      requires Progress(cfg, before, dialing, connected, hist, ts, quota, need) && start.Some?
      modifies this`dialing, this`bootnodes
      ensures Progress(cfg, before, dialing, connected, hist, ts', quota, need') && ts <= ts'
      ensures multiset(bootnodes) == multiset(old(bootnodes))
    {
      ts', need' := ts, need;
      if connected == {} && |bootnodes| > 0 && need > 0 && now - start.value > FALLBACK_INTERVAL {
        var bootnode := bootnodes[0];
        assert bootnodes == [bootnode] + bootnodes[1..];
        bootnodes := bootnodes[1..] + [bootnode];
        ts', need' := AddDial(Dynamic, bootnode, connected, ts, need, before, quota);
      }
    }

    /** Random table nodes for half of what is needed. */
    method DialRandom(connected: set<nat>, random: seq<Node>, ts: seq<DialTask>, need: int, ghost before: map<nat, Flag>, ghost quota: int)
      returns (ts': seq<DialTask>, need': int)
      requires Progress(cfg, before, dialing, connected, hist, ts, quota, need)
      modifies this`dialing
      ensures Progress(cfg, before, dialing, connected, hist, ts', quota, need') && ts <= ts'
    {
      ts', need' := ts, need;
      var candidates := need / 2;
      if candidates > 0 {
        var i := 0;
        while i < candidates && i < |random|
          invariant 0 <= i <= candidates
          invariant Progress(cfg, before, dialing, connected, hist, ts', quota, need') && ts <= ts'
          invariant need - i <= need'
        {
          ts', need' := AddDial(Dynamic, random[i], connected, ts', need', before, quota);
          i := i + 1;
        }
      }
    }

    /** Lookup results while more dials are needed; tried ones leave the buffer. */
    method DialLookup(connected: set<nat>, ts: seq<DialTask>, need: int, ghost before: map<nat, Flag>, ghost quota: int)
      returns (ts': seq<DialTask>, need': int, ghost tried: nat)
      requires Progress(cfg, before, dialing, connected, hist, ts, quota, need)
      modifies this`dialing, this`lookupBuf
      ensures Progress(cfg, before, dialing, connected, hist, ts', quota, need') && ts <= ts'
      ensures tried <= |old(lookupBuf)| && lookupBuf == old(lookupBuf)[tried..]
    {
      ts', need' := ts, need;
      var i := 0;
      while i < |lookupBuf| && need' > 0
        invariant 0 <= i <= |lookupBuf| && lookupBuf == old(lookupBuf)
        invariant Progress(cfg, before, dialing, connected, hist, ts', quota, need') && ts <= ts'
      {
        ts', need' := AddDial(Dynamic, lookupBuf[i], connected, ts', need', before, quota);
        i := i + 1;
      }
      tried := i;
      lookupBuf := lookupBuf[i..];
    }
  
    /** The position of the entry that expires first. */
    method MinIndex() returns (i: nat)
      requires |hist| > 0
      ensures i < |hist| && IsMin(hist, hist[i])
    {
      i := 0;
      for j := 1 to |hist|
        invariant i < |hist| && forall k :: 0 <= k < j ==> hist[i].exp <= hist[k].exp
      {
        if hist[j].exp < hist[i].exp {
          i := j;
        }
      }
    }

    /** Entries leave in the order they expire, until one is not past. */
    method ExpireHistory(now: int)
      modifies this`hist
      ensures hist == Expire(old(hist), now)
    {
      while |hist| > 0
        invariant Expire(hist, now) == Expire(old(hist), now)
        decreases |hist|
      {
        var i := MinIndex();
        if hist[i].exp >= now {
          NothingPast(hist, now);
          return;
        }
        ExpirePop(hist, i, now);
        hist := hist[..i] + hist[i + 1..];
      }
    }

    method CountNeed(peers: map<nat, bool>) returns (need: int)
      ensures need == Need(cfg, View(), DynPeers(peers))
    {
      need := cfg.maxDyn;
      var seen, left: set<nat> := {}, peers.Keys;
      while left != {}
        invariant left <= peers.Keys && seen == set id | id in peers && id !in left && peers[id]
        invariant need == cfg.maxDyn - |seen|
        decreases left
      {
        var id :| id in left;
        if peers[id] {
          seen := seen + {id};
          need := need - 1;
        }
        left := left - {id};
      }
      assert seen == DynPeers(peers);
      var dyn: set<nat> := {};
      left := dialing.Keys;
      while left != {}
        invariant left <= dialing.Keys && dyn == set id | id in dialing && id !in left && dialing[id] == Dynamic
        invariant need == cfg.maxDyn - |DynPeers(peers)| - |dyn|
        decreases left
      {
        var id :| id in left;
        if dialing[id] == Dynamic {
          dyn := dyn + {id};
          need := need - 1;
        }
        left := left - {id};
      }
      assert dyn == DynIds(dialing);
    }

    /** Dynamic dials: a bootnode, random nodes, lookup results. */
    method DialDynamic(connected: set<nat>, random: seq<Node>, now: int, ts: seq<DialTask>, need: int,
                       ghost before: map<nat, Flag>, ghost quota: int)
      returns (ts': seq<DialTask>, need': int, ghost tried: nat)
      requires Progress(cfg, before, dialing, connected, hist, ts, quota, need) && start.Some?
      modifies this`dialing, this`lookupBuf, this`bootnodes
      ensures Progress(cfg, before, dialing, connected, hist, ts', quota, need') && ts <= ts'
      ensures tried <= |old(lookupBuf)| && lookupBuf == old(lookupBuf)[tried..]
      ensures multiset(bootnodes) == multiset(old(bootnodes))
    {
      ts', need' := DialBootnode(connected, now, ts, need, before, quota);
      ts', need' := DialRandom(connected, random, ts', need', before, quota);
      ts', need', tried := DialLookup(connected, ts', need', before, quota);
    }

    /** Statics first, then a bootnode, random nodes and lookup results. */
    method MakeDials(connected: set<nat>, random: seq<Node>, now: int, quota: int) returns (ts: seq<DialTask>, need: int)
      requires StaticOk(statics) && start.Some?
      modifies this`dialing, this`statics, this`hist, this`lookupBuf, this`bootnodes
      ensures DialRound(cfg, old(View()), View(), connected, now, ts, quota)
      ensures DynCount(ts) + need == quota
    {
      ghost var before := dialing;
      ExpireHistory(now);
      var first := DialStatics(connected, quota);
      ghost var tried;
      ts, need, tried := DialDynamic(connected, random, now, first, quota, before, quota);
      ServedStaysAll(cfg, before, connected, hist, old(statics), statics, first, ts);
    }

    method MakeWait(nRunning: nat, now: int, dials: seq<DialTask>, discover: bool) returns (b: Batch)
      ensures b.dials == dials && b.discover == discover && WaitRound(hist, nRunning, now, b)
    {
      var wait := None;
      if nRunning == 0 && |dials| == 0 && !discover && |hist| > 0 {
        var i := MinIndex();
        wait := Some(hist[i].exp - now);
      }
      b := Batch(dials, discover, wait);
    }

    /** One round of scheduling: `peers` says of each connected peer whether it was dialed dynamically. */
    method Schedule(nRunning: nat, peers: map<nat, bool>, random: seq<Node>, now: int) returns (b: Batch)
      requires StaticOk(statics)
      modifies this
      ensures NewTasks(cfg, old(View()), View(), peers.Keys, DynPeers(peers), nRunning, now, b)
    {
      if start.None? {
        start := Some(now);
      }
      var quota := CountNeed(peers);
      var ts, need := MakeDials(peers.Keys, random, now, quota);
      var discover := false;
      if |lookupBuf| < need && !lookupRunning {
        lookupRunning := true;
        discover := true;
      }
      b := MakeWait(nRunning, now, ts, discover);
    }
  }

  function DynPeers(peers: map<nat, bool>): set<nat> {
    set id | id in peers && peers[id]
  }

  lemma ServedStaysAll(cfg: Config, dialing: map<nat, Flag>, connected: set<nat>, h: seq<PastDial>, all: map<nat, Node>,
                       statics: map<nat, Node>, ts: seq<DialTask>, ts': seq<DialTask>)
    requires StaticsServed(cfg, dialing, connected, h, all, statics, ts) && ts <= ts'
    ensures StaticsServed(cfg, dialing, connected, h, all, statics, ts')
  {
    forall id | id in all
      ensures StaticServed(cfg, dialing, connected, h, all, statics, ts', id)
    {
      ServedStays(cfg, dialing, connected, h, all, statics, statics, ts, ts', id);
    }
  }
}
