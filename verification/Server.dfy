/**
 The server's main loop (common/p2p/server.go) together with its dialer: admission of
 peers, start of dial tasks, and what their interplay guarantees over every run until
 shutdown.

 A run is a sequence of states, each reached from the one before by one turn of the loop:
 a scheduling round followed by one event. Here rounds and events are separate steps, in
 any order.
 */
module Server {
  import opened Dialer

  const MAX_ACTIVE_TASKS := 16
  const DEFAULT_DIAL_RATIO := 3

  datatype Settings = Settings(maxPeers: nat, dialRatio: nat, noDiscovery: bool, noDial: bool, self: nat, whitelist: Option<set<nat>>)

  function MaxDialed(s: Settings): (n: nat)
    ensures n <= s.maxPeers
  {
    if s.noDiscovery || s.noDial then 0
    else if s.dialRatio == 0 then s.maxPeers / DEFAULT_DIAL_RATIO
    else assert s.maxPeers / s.dialRatio <= s.maxPeers by { Quotient(s.maxPeers, s.dialRatio); }
         s.maxPeers / s.dialRatio
  }

  lemma Quotient(a: nat, b: nat)
    requires b > 0
    ensures 0 <= a / b <= a
  {
    var q := a / b;
    assert a == b * q + a % b;
    Product(q, b);
  }

  lemma Product(q: int, b: nat)
    requires b > 0
    ensures q >= 0 ==> b * q >= q
    ensures q < 0 ==> b * q + b <= 0
  {
  }

  function MaxInbound(s: Settings): nat {
    s.maxPeers - MaxDialed(s)
  }

  function DialConfig(s: Settings): Config {
    Config(MaxDialed(s), Some(s.self), s.whitelist)
  }

  /** A connection, and the peer it becomes. */
  datatype Conn = Conn(id: nat, inbound: bool, dynamic: bool, fixed: bool, trusted: bool)

  datatype Task = Dial(t: DialTask) | Discover | Wait

  /** The loop's variables and the dialer; what was ever scheduled and started; when dials last completed. */
  datatype State = State(
    d: Dialer.State, peers: map<nat, Conn>, inboundCount: int, running: seq<Task>, queued: seq<Task>,
    scheduled: seq<Task>, started: seq<Task>, last: map<nat, int>, clock: int)

  // ------------------------------------------------------------------- admission

  datatype Verdict = Accept | TooManyPeers | AlreadyConnected | ToSelf | Useless

  function EncChecks(s: Settings, peers: map<nat, Conn>, inboundCount: int, c: Conn): Verdict {
    if !(c.trusted || c.fixed) && |peers| >= s.maxPeers then TooManyPeers
    else if !c.trusted && c.inbound && inboundCount >= MaxInbound(s) then TooManyPeers
    else if c.id in peers then Verdict.AlreadyConnected
    else if c.id == s.self then ToSelf
    else Accept
  }

  /** `matching` says whether the connection shares a protocol with us, or we have none. */
  function ProtoChecks(s: Settings, peers: map<nat, Conn>, inboundCount: int, c: Conn, matching: bool): Verdict {
    if !matching then Useless else EncChecks(s, peers, inboundCount, c)
  }

  // ------------------------------------------------------------------- the steps

  /** Starts tasks until enough are running. */
  function Fill(running: seq<Task>, ts: seq<Task>): (n: nat)
    ensures n <= |ts|
  {
    if |running| >= MAX_ACTIVE_TASKS then 0
    else if |running| + |ts| <= MAX_ACTIVE_TASKS then |ts|
    else MAX_ACTIVE_TASKS - |running|
  }

  function Tasks(b: Batch): seq<Task> {
    seq(|b.dials|, k requires 0 <= k < |b.dials| => Dial(b.dials[k]))
      + (if b.discover then [Discover] else []) + (if b.wait.Some? then [Wait] else [])
  }

  function StartQueued(st: State): State {
    var n := Fill(st.running, st.queued);
    st.(running := st.running + st.queued[..n], queued := st.queued[n..], started := st.started + st.queued[..n])
  }

  function StartNew(st: State, ts: seq<Task>): State {
    var n := Fill(st.running, ts);
    st.(running := st.running + ts[..n], queued := st.queued + ts[n..],
        scheduled := st.scheduled + ts, started := st.started + ts[..n])
  }

  function DynConns(peers: map<nat, Conn>): set<nat> {
    set id | id in peers && peers[id].dynamic
  }

  /** The dialer's tasks are started or queued. */
  ghost predicate NewRound(s: Settings, st: State, st': State, now: int) {
    exists b, d' ::
      && NewTasks(DialConfig(s), st.d, d', st.peers.Keys, DynConns(st.peers), |st.running| + |st.queued|, now, b)
      && st' == StartNew(st, Tasks(b)).(d := d', clock := now)
  }

  /** A scheduling round: queued tasks first, then the dialer's, while there is room. */
  ghost predicate Round(s: Settings, st: State, st': State, now: int) {
    var st1 := StartQueued(st);
    && now >= st.clock
    && if |st1.running| < MAX_ACTIVE_TASKS then NewRound(s, st1, st', now) else st' == st1.(clock := now)
  }

  function Without<T>(ts: seq<T>, i: nat): seq<T>
    requires i < |ts|
  {
    ts[..i] + ts[i + 1..]
  }

  /** A task is done. */
  function TaskDone(st: State, i: nat, now: int, results: seq<Node>): State
    requires i < |st.running|
  {
    var st1 := st.(running := Without(st.running, i), clock := now);
    match st.running[i]
    case Dial(t) =>
      st1.(d := st.d.(hist := st.d.hist + [PastDial(t.dest.id, now + HISTORY_EXPIRATION)], dialing := st.d.dialing - {t.dest.id}),
           last := st.last[t.dest.id := now])
    case Discover => st1.(d := st.d.(lookupRunning := false, lookupBuf := st.d.lookupBuf + results))
    case Wait => st1
  }

  function AddPeer(s: Settings, st: State, c: Conn, matching: bool): State {
    if ProtoChecks(s, st.peers, st.inboundCount, c, matching) != Accept then st
    else st.(peers := st.peers[c.id := c], inboundCount := st.inboundCount + if c.inbound then 1 else 0)
  }

  function DropPeer(st: State, id: nat): State
    requires id in st.peers
  {
    st.(peers := st.peers - {id}, inboundCount := st.inboundCount - if st.peers[id].inbound then 1 else 0)
  }

  function AddStatic(st: State, n: Node): State {
    st.(d := st.d.(statics := st.d.statics[n.id := n]))
  }

  function RemoveStatic(st: State, n: Node): State {
    st.(d := st.d.(statics := st.d.statics - {n.id}, hist := RemoveId(st.d.hist, n.id)), last := st.last - {n.id})
  }

  /** A dynamic connection arrives only while its node is being dialed dynamically. */
  ghost predicate DialedFirst(st: State, c: Conn) {
    c.dynamic ==> c.id in st.d.dialing && st.d.dialing[c.id] == Dynamic
  }

  ghost predicate Next(s: Settings, st: State, st': State) {
    || (exists now :: Round(s, st, st', now))
    || (exists i, now, results :: 0 <= i < |st.running| && now >= st.clock && st' == TaskDone(st, i, now, results))
    || (exists c, matching :: DialedFirst(st, c) && st' == AddPeer(s, st, c, matching))
    || (exists id :: id in st.peers && st' == DropPeer(st, id))
    || (exists n :: st' == AddStatic(st, n))
    || (exists n :: st' == RemoveStatic(st, n))
  }

  // ---------------------------------------------------------------- the invariant

  /** The outstanding dials have distinct ids, and these are the ids being dialed. */
  ghost predicate Outstanding(ts: seq<Task>, dialing: map<nat, Flag>) {
    && (forall k :: 0 <= k < |ts| && ts[k].Dial? ==>
          ts[k].t.dest.id in dialing && dialing[ts[k].t.dest.id] == ts[k].t.flag)
    && (forall j, k :: 0 <= j < k < |ts| && ts[j].Dial? && ts[k].Dial? ==> ts[j].t.dest.id != ts[k].t.dest.id)
    && (forall id :: id in dialing ==> exists k :: 0 <= k < |ts| && ts[k].Dial? && ts[k].t.dest.id == id)
  }

  function Lookups(ts: seq<Task>): nat {
    if |ts| == 0 then 0 else (if ts[0] == Discover then 1 else 0) + Lookups(ts[1..])
  }

  /** At most one lookup is outstanding, and exactly when one is marked as running. */
  ghost predicate OneLookup(ts: seq<Task>, lookupRunning: bool) {
    Lookups(ts) == if lookupRunning then 1 else 0
  }

  /** Nodes being dialed dynamically and peers that were. */
  function DynUnion(peers: map<nat, Conn>, dialing: map<nat, Flag>): set<nat> {
    DynConns(peers) + DynIds(dialing)
  }

  ghost predicate HistoryOk(h: seq<PastDial>, dialing: map<nat, Flag>) {
    UniqueIds(h) && forall e :: e in h ==> e.id !in dialing
  }

  /** A completed dial is in the history until more than half a minute has passed. */
  ghost predicate Spaced(h: seq<PastDial>, last: map<nat, int>, clock: int) {
    forall id :: id in last ==>
      PastDial(id, last[id] + HISTORY_EXPIRATION) in h || clock > last[id] + HISTORY_EXPIRATION
  }

  function Inbound(peers: map<nat, Conn>): set<nat> {
    set id | id in peers && peers[id].inbound
  }

  function Ordinary(peers: map<nat, Conn>): set<nat> {
    set id | id in peers && !peers[id].trusted && !peers[id].fixed
  }

  function UntrustedInbound(peers: map<nat, Conn>): set<nat> {
    set id | id in peers && !peers[id].trusted && peers[id].inbound
  }

  ghost predicate Admitted(s: Settings, peers: map<nat, Conn>, inboundCount: int) {
    && inboundCount == |Inbound(peers)|
    && |Ordinary(peers)| <= s.maxPeers
    && |UntrustedInbound(peers)| <= MaxInbound(s)
    && s.self !in peers
    && forall id :: id in peers ==> peers[id].id == id
  }

  /** Tasks start once each, in the order they were scheduled, and never too many at a time. */
  ghost predicate TasksOk(st: State) {
    && |st.running| <= MAX_ACTIVE_TASKS
    && st.started + st.queued == st.scheduled
  }

  ghost predicate Inv(s: Settings, st: State) {
    && Outstanding(st.running + st.queued, st.d.dialing)
    && OneLookup(st.running + st.queued, st.d.lookupRunning)
    && |DynUnion(st.peers, st.d.dialing)| <= MaxDialed(s)
    && HistoryOk(st.d.hist, st.d.dialing)
    && Spaced(st.d.hist, st.last, st.clock)
    && Admitted(s, st.peers, st.inboundCount)
    && TasksOk(st)
    && StaticOk(st.d.statics)
  }

  // ------------------------------------------------------------------ outstanding tasks

  lemma {:induction false} LookupsAppend(a: seq<Task>, b: seq<Task>)
    ensures Lookups(a + b) == Lookups(a) + Lookups(b)
  {
    if |a| == 0 {
      assert a + b == b;
    } else {
      LookupsAppend(a[1..], b);
      assert (a + b)[1..] == a[1..] + b;
    }
  }

  lemma {:induction false} NoLookups(ts: seq<Task>)
    requires forall k :: 0 <= k < |ts| ==> ts[k] != Discover
    ensures Lookups(ts) == 0
  {
    if |ts| > 0 {
      NoLookups(ts[1..]);
    }
  }

  lemma TasksLookups(b: Batch)
    ensures Lookups(Tasks(b)) == if b.discover then 1 else 0
  {
    var dials: seq<Task> := seq(|b.dials|, k requires 0 <= k < |b.dials| => Dial(b.dials[k]));
    var disc: seq<Task> := if b.discover then [Discover] else [];
    var wait: seq<Task> := if b.wait.Some? then [Wait] else [];
    NoLookups(dials);
    NoLookups(wait);
    LookupsAppend(dials + disc, wait);
    LookupsAppend(dials, disc);
  }

  lemma LookupsSplit(a: seq<Task>, x: Task, b: seq<Task>)
    ensures Lookups(a + ([x] + b)) == Lookups(a + b) + if x == Discover then 1 else 0
  {
    LookupsAppend(a, [x] + b);
    LookupsAppend(a, b);
    assert ([x] + b)[1..] == b;
  }

  lemma LookupsWithout(ts: seq<Task>, i: nat)
    requires i < |ts|
    ensures Lookups(Without(ts, i)) == Lookups(ts) - if ts[i] == Discover then 1 else 0
  {
    Around(ts, i);
    LookupsSplit(ts[..i], ts[i], ts[i + 1..]);
  }

  lemma Around(ts: seq<Task>, i: nat)
    requires i < |ts|
    ensures ts == ts[..i] + ([ts[i]] + ts[i + 1..])
  {
  }

  lemma TasksAt(b: Batch, k: nat)
    requires k < |Tasks(b)|
    ensures Tasks(b)[k].Dial? <==> k < |b.dials|
    ensures k < |b.dials| ==> Tasks(b)[k] == Dial(b.dials[k])
  {
  }

  lemma AllTasksAt(b: Batch)
    ensures Carries(Tasks(b), b.dials)
  {
    forall k | 0 <= k < |Tasks(b)|
      ensures (Tasks(b)[k].Dial? <==> k < |b.dials|) && (k < |b.dials| ==> Tasks(b)[k] == Dial(b.dials[k]))
    {
      TasksAt(b, k);
    }
  }

  /** Tasks of which the first are the given dials and the others are no dials. */
  ghost predicate Carries(ts: seq<Task>, dials: seq<DialTask>) {
    && |ts| >= |dials|
    && (forall k :: 0 <= k < |ts| ==> (ts[k].Dial? <==> k < |dials|))
    && forall k :: 0 <= k < |dials| ==> ts[k] == Dial(dials[k])
  }

  /** New dials join the outstanding ones. */
  lemma OutstandingMore(ts: seq<Task>, more: seq<Task>, dialing: map<nat, Flag>, dialing': map<nat, Flag>, dials: seq<DialTask>)
    requires Outstanding(ts, dialing) && Launched(dialing, dialing', dials) && Carries(more, dials)
    ensures Outstanding(ts + more, dialing')
  {
    var all := ts + more;
    forall id | id in dialing'
      ensures exists k :: 0 <= k < |all| && all[k].Dial? && all[k].t.dest.id == id
    {
      if id in dialing {
        var k :| 0 <= k < |ts| && ts[k].Dial? && ts[k].t.dest.id == id;
        assert all[k] == ts[k];
      } else {
        var k :| 0 <= k < |dials| && dials[k].dest.id == id;
        assert all[|ts| + k] == Dial(dials[k]);
      }
    }
  }

  /** A finished dial leaves them. */
  lemma OutstandingLess(ts: seq<Task>, dialing: map<nat, Flag>, i: nat)
    requires Outstanding(ts, dialing) && i < |ts|
    ensures Outstanding(Without(ts, i), if ts[i].Dial? then dialing - {ts[i].t.dest.id} else dialing)
  {
    var rest := Without(ts, i);
    var dialing' := if ts[i].Dial? then dialing - {ts[i].t.dest.id} else dialing;
    assert forall k :: 0 <= k < |rest| ==> rest[k] == if k < i then ts[k] else ts[k + 1];
    forall id | id in dialing'
      ensures exists k :: 0 <= k < |rest| && rest[k].Dial? && rest[k].t.dest.id == id
    {
      var k :| 0 <= k < |ts| && ts[k].Dial? && ts[k].t.dest.id == id;
      assert k != i;
      assert rest[if k < i then k else k - 1] == ts[k];
    }
  }

  // ------------------------------------------------------------------------- rounds

  /** Starting queued tasks moves them from the queue to the running ones, in place. */
  lemma StartQueuedKeeps(st: State)
    requires TasksOk(st)
    ensures var st1 := StartQueued(st);
            && st1.running + st1.queued == st.running + st.queued
            && TasksOk(st1)
            && (|st1.running| < MAX_ACTIVE_TASKS ==> st1.queued == [])
  {
    var n := Fill(st.running, st.queued);
    assert st.queued == st.queued[..n] + st.queued[n..];
  }

  lemma StartNewKeeps(st: State, ts: seq<Task>)
    requires TasksOk(st) && st.queued == []
    ensures var st1 := StartNew(st, ts);
            && st1.running + st1.queued == (st.running + st.queued) + ts
            && TasksOk(st1)
            && (st1.queued != [] ==> |st1.running| == MAX_ACTIVE_TASKS)
  {
    var n := Fill(st.running, ts);
    assert ts == ts[..n] + ts[n..];
    assert st.started == st.scheduled;
  }

  lemma SetBounds(a: set<nat>, b: set<nat>)
    ensures |a + b| <= |a| + |b|
  {
    assert a + b == a + (b - a);
    assert |a + (b - a)| == |a| + |b - a|;
    assert b - a <= b;
    SubsetSize(b - a, b);
  }

  lemma SubsetSize(a: set<nat>, b: set<nat>)
    requires a <= b
    ensures |a| <= |b|
  {
    assert b == a + (b - a);
    assert |b| == |a| + |b - a|;
  }

  function DynDialIds(ts: seq<DialTask>): set<nat> {
    set k | 0 <= k < |ts| && ts[k].flag == Dynamic :: ts[k].dest.id
  }

  lemma {:induction false} DynDialSize(ts: seq<DialTask>)
    ensures |DynDialIds(ts)| <= DynCount(ts)
    decreases |ts|
  {
    if |ts| > 0 {
      var n := |ts| - 1;
      DynDialSize(ts[..n]);
      var more := if ts[n].flag == Dynamic then {ts[n].dest.id} else {};
      forall id | id in DynDialIds(ts)
        ensures id in DynDialIds(ts[..n]) + more
      {
        var k :| 0 <= k < |ts| && ts[k].flag == Dynamic && ts[k].dest.id == id;
        assert k < n ==> ts[..n][k] == ts[k];
      }
      SubsetSize(DynDialIds(ts), DynDialIds(ts[..n]) + more);
      SetBounds(DynDialIds(ts[..n]), more);
    }
  }

  /** The dynamic dials of a round stay within the quota. */
  lemma QuotaKept(s: Settings, peers: map<nat, Conn>, d: Dialer.State, dialing': map<nat, Flag>, ts: seq<DialTask>)
    requires |DynUnion(peers, d.dialing)| <= MaxDialed(s) && Launched(d.dialing, dialing', ts)
    requires DynCount(ts) == 0 || DynCount(ts) <= Need(DialConfig(s), d, DynConns(peers))
    ensures |DynUnion(peers, dialing')| <= MaxDialed(s)
  {
    var added := DynDialIds(ts);
    forall id | id in DynUnion(peers, dialing')
      ensures id in DynUnion(peers, d.dialing) + added
    {
      if id in dialing' && id !in d.dialing && dialing'[id] == Dynamic {
        var k :| 0 <= k < |ts| && ts[k].dest.id == id;
        assert ts[k].flag == Dynamic;
      }
    }
    SubsetSize(DynUnion(peers, dialing'), DynUnion(peers, d.dialing) + added);
    SetBounds(DynUnion(peers, d.dialing), added);
    SetBounds(DynConns(peers), DynIds(d.dialing));
    DynDialSize(ts);
  }

  /** New dials are not in the history, and old entries are not dialed. */
  lemma HistoryRound(cfg: Config, h: seq<PastDial>, now: int, dialing: map<nat, Flag>, dialing': map<nat, Flag>,
                     connected: set<nat>, ts: seq<DialTask>)
    requires HistoryOk(h, dialing) && Launched(dialing, dialing', ts)
    requires Eligible(cfg, dialing, connected, Expire(h, now), ts)
    ensures HistoryOk(Expire(h, now), dialing')
  {
    ExpireKeeps(h, now);
    forall e | e in Expire(h, now)
      ensures e.id !in dialing'
    {
      assert e in h;
    }
  }

  lemma SpacedRound(h: seq<PastDial>, last: map<nat, int>, clock: int, now: int)
    requires Spaced(h, last, clock) && now >= clock
    ensures Spaced(Expire(h, now), last, now)
  {
    ExpireKeeps(h, now);
  }

  lemma StaticsRound(cfg: Config, dialing: map<nat, Flag>, connected: set<nat>, h: seq<PastDial>,
                     statics: map<nat, Node>, statics': map<nat, Node>, ts: seq<DialTask>)
    requires StaticOk(statics) && StaticsServed(cfg, dialing, connected, h, statics, statics', ts)
    ensures StaticOk(statics')
  {
    forall id | id in statics'
      ensures statics'[id].id == id
    {
      assert StaticServed(cfg, dialing, connected, h, statics, statics', ts, id);
    }
  }

  lemma LookupRoundKeeps(ts: seq<Task>, d: Dialer.State, d': Dialer.State, rest: int, b: Batch)
    requires OneLookup(ts, d.lookupRunning) && LookupRound(d, d', rest, b.discover)
    ensures OneLookup(ts + Tasks(b), d'.lookupRunning)
  {
    LookupsAppend(ts, Tasks(b));
    TasksLookups(b);
  }

  lemma QueuedInv(s: Settings, st: State)
    requires Inv(s, st)
    ensures Inv(s, StartQueued(st))
    ensures |StartQueued(st).running| < MAX_ACTIVE_TASKS ==> StartQueued(st).queued == []
  {
    StartQueuedKeeps(st);
  }

  lemma ClockInv(s: Settings, st: State, now: int)
    requires Inv(s, st) && now >= st.clock
    ensures Inv(s, st.(clock := now))
  {
  }

  lemma RoundKeeps(s: Settings, st: State, st': State, now: int)
    requires Inv(s, st) && Round(s, st, st', now)
    ensures Inv(s, st')
    ensures st'.queued != [] ==> |st'.running| == MAX_ACTIVE_TASKS
  {
    var st1 := StartQueued(st);
    QueuedInv(s, st);
    if |st1.running| < MAX_ACTIVE_TASKS {
      NewRoundInv(s, st1, st', now);
    } else {
      ClockInv(s, st1, now);
    }
  }

  lemma NewRoundInv(s: Settings, st: State, st': State, now: int)
    requires Inv(s, st) && st.queued == [] && now >= st.clock && NewRound(s, st, st', now)
    ensures Inv(s, st')
    ensures st'.queued != [] ==> |st'.running| == MAX_ACTIVE_TASKS
  {
    var b, d' :|
      && NewTasks(DialConfig(s), st.d, d', st.peers.Keys, DynConns(st.peers), |st.running| + |st.queued|, now, b)
      && st' == StartNew(st, Tasks(b)).(d := d', clock := now);
    NewRoundKeeps(s, st, d', now, b);
  }

  lemma NewRoundKeeps(s: Settings, st: State, d': Dialer.State, now: int, b: Batch)
    requires Inv(s, st) && st.queued == [] && now >= st.clock
    requires NewTasks(DialConfig(s), st.d, d', st.peers.Keys, DynConns(st.peers), |st.running| + |st.queued|, now, b)
    ensures Inv(s, StartNew(st, Tasks(b)).(d := d', clock := now))
    ensures var st' := StartNew(st, Tasks(b)); st'.queued != [] ==> |st'.running| == MAX_ACTIVE_TASKS
  {
    var outstanding := st.running + st.queued;
    StartNewKeeps(st, Tasks(b));
    AllTasksAt(b);
    OutstandingMore(outstanding, Tasks(b), st.d.dialing, d'.dialing, b.dials);
    LookupRoundKeeps(outstanding, st.d, d', Need(DialConfig(s), st.d, DynConns(st.peers)) - DynCount(b.dials), b);
    QuotaKept(s, st.peers, st.d, d'.dialing, b.dials);
    HistoryRound(DialConfig(s), st.d.hist, now, st.d.dialing, d'.dialing, st.peers.Keys, b.dials);
    SpacedRound(st.d.hist, st.last, st.clock, now);
    StaticsRound(DialConfig(s), st.d.dialing, st.peers.Keys, d'.hist, st.d.statics, d'.statics, b.dials);
  }

  // -------------------------------------------------------------------------- events

  lemma WithoutRunning(running: seq<Task>, queued: seq<Task>, i: nat)
    requires i < |running|
    ensures Without(running, i) + queued == Without(running + queued, i)
    ensures (running + queued)[i] == running[i]
  {
  }

  /** A dial that completes moves from the dialing nodes to the history. */
  lemma HistoryDone(h: seq<PastDial>, dialing: map<nat, Flag>, id: nat, exp: int)
    requires HistoryOk(h, dialing) && id in dialing
    ensures HistoryOk(h + [PastDial(id, exp)], dialing - {id})
  {
    assert forall i :: 0 <= i < |h| ==> h[i] in h;
  }

  lemma SpacedDone(h: seq<PastDial>, last: map<nat, int>, clock: int, id: nat, now: int)
    requires Spaced(h, last, clock) && now >= clock
    ensures Spaced(h + [PastDial(id, now + HISTORY_EXPIRATION)], last[id := now], now)
  {
    var h' := h + [PastDial(id, now + HISTORY_EXPIRATION)];
    assert h'[|h|] == PastDial(id, now + HISTORY_EXPIRATION);
    assert forall e :: e in h ==> e in h';
  }

  lemma FewerDyn(peers: map<nat, Conn>, peers': map<nat, Conn>, dialing: map<nat, Flag>, dialing': map<nat, Flag>)
    requires DynUnion(peers', dialing') <= DynUnion(peers, dialing)
    ensures |DynUnion(peers', dialing')| <= |DynUnion(peers, dialing)|
  {
    SubsetSize(DynUnion(peers', dialing'), DynUnion(peers, dialing));
  }

  lemma DialDoneKeeps(s: Settings, st: State, i: nat, now: int, results: seq<Node>)
    requires Inv(s, st) && i < |st.running| && now >= st.clock && st.running[i].Dial?
    ensures Inv(s, TaskDone(st, i, now, results))
  {
    var id := st.running[i].t.dest.id;
    var next := TaskDone(st, i, now, results);
    WithoutRunning(st.running, st.queued, i);
    OutstandingLess(st.running + st.queued, st.d.dialing, i);
    LookupsWithout(st.running + st.queued, i);
    FewerDyn(st.peers, st.peers, st.d.dialing, next.d.dialing);
    HistoryDone(st.d.hist, st.d.dialing, id, now + HISTORY_EXPIRATION);
    SpacedDone(st.d.hist, st.last, st.clock, id, now);
  }

  lemma OtherDoneKeeps(s: Settings, st: State, i: nat, now: int, results: seq<Node>)
    requires Inv(s, st) && i < |st.running| && now >= st.clock && !st.running[i].Dial?
    ensures Inv(s, TaskDone(st, i, now, results))
  {
    WithoutRunning(st.running, st.queued, i);
    OutstandingLess(st.running + st.queued, st.d.dialing, i);
    LookupsWithout(st.running + st.queued, i);
  }

  lemma InboundMore(peers: map<nat, Conn>, c: Conn)
    requires c.id !in peers
    ensures |Inbound(peers[c.id := c])| == |Inbound(peers)| + if c.inbound then 1 else 0
  {
    assert Inbound(peers[c.id := c]) == Inbound(peers) + if c.inbound then {c.id} else {};
  }

  lemma OrdinaryMore(peers: map<nat, Conn>, c: Conn)
    requires c.id !in peers
    ensures |Ordinary(peers[c.id := c])| == |Ordinary(peers)| + if !c.trusted && !c.fixed then 1 else 0
  {
    assert Ordinary(peers[c.id := c]) == Ordinary(peers) + if !c.trusted && !c.fixed then {c.id} else {};
  }

  lemma UntrustedMore(peers: map<nat, Conn>, c: Conn)
    requires c.id !in peers
    ensures |UntrustedInbound(peers[c.id := c])| == |UntrustedInbound(peers)| + if !c.trusted && c.inbound then 1 else 0
  {
    assert UntrustedInbound(peers[c.id := c]) == UntrustedInbound(peers) + if !c.trusted && c.inbound then {c.id} else {};
  }

  lemma AdmitKeeps(s: Settings, peers: map<nat, Conn>, inboundCount: int, c: Conn)
    requires Admitted(s, peers, inboundCount) && EncChecks(s, peers, inboundCount, c) == Accept
    ensures Admitted(s, peers[c.id := c], inboundCount + if c.inbound then 1 else 0)
  {
    InboundMore(peers, c);
    OrdinaryMore(peers, c);
    UntrustedMore(peers, c);
    SubsetSize(Ordinary(peers), peers.Keys);
    assert |peers| == |peers.Keys|;
    SubsetSize(UntrustedInbound(peers), Inbound(peers));
  }

  /** A dynamic peer was being dialed dynamically, so it is counted already. */
  lemma DynPeerCounted(peers: map<nat, Conn>, dialing: map<nat, Flag>, c: Conn)
    requires c.dynamic ==> c.id in dialing && dialing[c.id] == Dynamic
    ensures |DynUnion(peers[c.id := c], dialing)| <= |DynUnion(peers, dialing)|
  {
    FewerDyn(peers, peers[c.id := c], dialing, dialing);
  }

  lemma AddPeerKeeps(s: Settings, st: State, c: Conn, matching: bool)
    requires Inv(s, st) && DialedFirst(st, c)
    ensures Inv(s, AddPeer(s, st, c, matching))
  {
    if ProtoChecks(s, st.peers, st.inboundCount, c, matching) == Accept {
      AdmitKeeps(s, st.peers, st.inboundCount, c);
      DynPeerCounted(st.peers, st.d.dialing, c);
    }
  }

  lemma DropKeeps(s: Settings, peers: map<nat, Conn>, inboundCount: int, id: nat)
    requires Admitted(s, peers, inboundCount) && id in peers
    ensures Admitted(s, peers - {id}, inboundCount - if peers[id].inbound then 1 else 0)
  {
    var peers' := peers - {id};
    assert Inbound(peers') == Inbound(peers) - {id};
    SubsetSize(Ordinary(peers'), Ordinary(peers));
    SubsetSize(UntrustedInbound(peers'), UntrustedInbound(peers));
  }

  lemma DropPeerKeeps(s: Settings, st: State, id: nat)
    requires Inv(s, st) && id in st.peers
    ensures Inv(s, DropPeer(st, id))
  {
    DropKeeps(s, st.peers, st.inboundCount, id);
    FewerDyn(st.peers, st.peers - {id}, st.d.dialing, st.d.dialing);
  }

  lemma AddStaticKeeps(s: Settings, st: State, n: Node)
    requires Inv(s, st)
    ensures Inv(s, AddStatic(st, n))
  {
  }

  lemma RemoveStaticKeeps(s: Settings, st: State, n: Node)
    requires Inv(s, st)
    ensures Inv(s, RemoveStatic(st, n))
  {
    HistoryRemoved(st.d.hist, st.d.dialing, n.id);
    SpacedRemoved(st.d.hist, st.last, st.clock, n.id);
  }

  lemma HistoryRemoved(h: seq<PastDial>, dialing: map<nat, Flag>, id: nat)
    requires HistoryOk(h, dialing)
    ensures HistoryOk(RemoveId(h, id), dialing)
  {
    RemoveKeeps(h, id);
  }

  lemma SpacedRemoved(h: seq<PastDial>, last: map<nat, int>, clock: int, id: nat)
    requires Spaced(h, last, clock) && UniqueIds(h)
    ensures Spaced(RemoveId(h, id), last - {id}, clock)
  {
    RemoveKeeps(h, id);
  }

  lemma NextKeeps(s: Settings, st: State, st': State)
    requires Inv(s, st) && Next(s, st, st')
    ensures Inv(s, st')
  {
    if now :| Round(s, st, st', now) {
      RoundKeeps(s, st, st', now);
    } else if i, now, results :| 0 <= i < |st.running| && now >= st.clock && st' == TaskDone(st, i, now, results) {
      if st.running[i].Dial? {
        DialDoneKeeps(s, st, i, now, results);
      } else {
        OtherDoneKeeps(s, st, i, now, results);
      }
    } else if c, matching :| DialedFirst(st, c) && st' == AddPeer(s, st, c, matching) {
      AddPeerKeeps(s, st, c, matching);
    } else if id :| id in st.peers && st' == DropPeer(st, id) {
      DropPeerKeeps(s, st, id);
    } else if n :| st' == AddStatic(st, n) {
      AddStaticKeeps(s, st, n);
    } else if n :| st' == RemoveStatic(st, n) {
      RemoveStaticKeeps(s, st, n);
    }
  }

  // ---------------------------------------------------------------------------- runs

  /** The server as it starts: nothing dialed, nobody connected. */
  ghost predicate Initial(st: State) {
    && st.d.dialing == map[] && st.d.hist == [] && !st.d.lookupRunning && StaticOk(st.d.statics)
    && st.peers == map[] && st.inboundCount == 0 && st.running == [] && st.queued == []
    && st.scheduled == [] && st.started == [] && st.last == map[]
  }

  ghost predicate IsRun(s: Settings, run: seq<State>) {
    && |run| > 0 && Initial(run[0])
    && forall i :: 0 <= i < |run| - 1 ==> Next(s, run[i], run[i + 1])
  }

  lemma InitialInv(s: Settings, st: State)
    requires Initial(st)
    ensures Inv(s, st)
  {
    assert DynUnion(st.peers, st.d.dialing) == {};
    assert Inbound(st.peers) == {} && Ordinary(st.peers) == {} && UntrustedInbound(st.peers) == {};
  }

  /**
   For every run and every state in it: the dials outstanding are the nodes being dialed,
   one each; at most one lookup is outstanding; the dynamic quota, the peer limit and the
   inbound limit hold; we are not our own peer; the history has each node once; tasks
   start once each, in order, at most sixteen at a time.
   */
  lemma {:induction false} EveryRun(s: Settings, run: seq<State>, i: nat)
    requires IsRun(s, run) && i < |run|
    ensures Inv(s, run[i])
    decreases i
  {
    if i == 0 {
      InitialInv(s, run[0]);
    } else {
      EveryRun(s, run, i - 1);
      assert Next(s, run[i - 1], run[i - 1 + 1]);
      NextKeeps(s, run[i - 1], run[i]);
    }
  }

  lemma DialedLate(h: seq<PastDial>, dialing: map<nat, Flag>, last: map<nat, int>, clock: int, id: nat)
    requires HistoryOk(h, dialing) && Spaced(h, last, clock) && id in dialing && id in last
    ensures clock > last[id] + HISTORY_EXPIRATION
  {
    var e := PastDial(id, last[id] + HISTORY_EXPIRATION);
    assert e in h ==> e.id !in dialing;
  }

  lemma RoundFrame(s: Settings, st: State, st': State, now: int)
    requires Round(s, st, st', now)
    ensures st'.last == st.last && st'.clock == now
  {
  }

  /** A node starts being dialed again only more than half a minute after its last dial completed. */
  lemma NoEarlyRedial(s: Settings, st: State, st': State, now: int, id: nat)
    requires Inv(s, st) && Round(s, st, st', now)
    requires id in st'.d.dialing && id !in st.d.dialing && id in st.last
    ensures now > st.last[id] + HISTORY_EXPIRATION
  {
    RoundKeeps(s, st, st', now);
    RoundFrame(s, st, st', now);
    DialedLate(st'.d.hist, st'.d.dialing, st'.last, st'.clock, id);
  }

  lemma NoTasks(b: Batch)
    requires Tasks(b) == []
    ensures b.dials == [] && !b.discover && b.wait.None?
  {
    assert |Tasks(b)| == |b.dials| + (if b.discover then 1 else 0) + if b.wait.Some? then 1 else 0;
  }

  lemma NothingStarted(st: State, ts: seq<Task>)
    requires st.running == [] && st.queued == [] && StartNew(st, ts).running == [] && StartNew(st, ts).queued == []
    ensures ts == []
  {
    var n := Fill(st.running, ts);
    assert |st.running + ts[..n]| == n && |st.queued + ts[n..]| == |ts| - n;
  }

  /** With nothing to run, a round leaves nothing to run only if the history is used up. */
  lemma NoIdling(s: Settings, st: State, st': State, now: int)
    requires Round(s, st, st', now) && st.running == [] && st.queued == []
    requires st'.running == [] && st'.queued == []
    ensures st'.d.hist == []
  {
    var st1 := StartQueued(st);
    assert st1.running == [] && st1.queued == [];
    var b, d' :|
      && NewTasks(DialConfig(s), st1.d, d', st1.peers.Keys, DynConns(st1.peers), |st1.running| + |st1.queued|, now, b)
      && st' == StartNew(st1, Tasks(b)).(d := d', clock := now);
    IdleBatch(s, st1, d', now, b);
  }

  lemma IdleBatch(s: Settings, st: State, d': Dialer.State, now: int, b: Batch)
    requires st.running == [] && st.queued == []
    requires NewTasks(DialConfig(s), st.d, d', st.peers.Keys, DynConns(st.peers), |st.running| + |st.queued|, now, b)
    requires StartNew(st, Tasks(b)).running == [] && StartNew(st, Tasks(b)).queued == []
    ensures d'.hist == []
  {
    NothingStarted(st, Tasks(b));
    NoTasks(b);
    assert WaitRound(d'.hist, 0, now, b);
  }

  // ------------------------------------------------------------------- the loop itself

  /** Of each peer, whether it was dialed dynamically. */
  function Flags(peers: map<nat, Conn>): map<nat, bool> {
    map id | id in peers :: peers[id].dynamic
  }

  lemma FlagsAgree(peers: map<nat, Conn>)
    ensures DynPeers(Flags(peers)) == DynConns(peers) && Flags(peers).Keys == peers.Keys
  {
  }

  lemma RoundBy(s: Settings, st: State, st': State, d': Dialer.State, now: int, b: Batch)
    requires NewTasks(DialConfig(s), st.d, d', st.peers.Keys, DynConns(st.peers), |st.running| + |st.queued|, now, b)
    requires st' == StartNew(st, Tasks(b)).(d := d', clock := now)
    ensures NewRound(s, st, st', now)
  {
  }

  class RunLoop {
    const s: Settings
    const dialer: DialState
    var peers: map<nat, Conn>
    var inboundCount: int
    var running: seq<Task>
    var queued: seq<Task>

    constructor (s: Settings, dialer: DialState)
      ensures this.s == s && this.dialer == dialer
      ensures peers == map[] && inboundCount == 0 && running == [] && queued == []
    {
      this.s, this.dialer := s, dialer;
      peers, inboundCount, running, queued := map[], 0, [], [];
    }

    /** The loop's variables are those of a state. */
    ghost predicate Shows(st: State)
      reads this, dialer
    {
      st.d == dialer.View() && st.peers == peers && st.inboundCount == inboundCount && st.running == running && st.queued == queued
    }

    /** Starts tasks until enough are running; the rest has to wait. */
    method StartTasks(ts: seq<Task>) returns (rest: seq<Task>)
      modifies this`running
      ensures var n := Fill(old(running), ts); running == old(running) + ts[..n] && rest == ts[n..]
    {
      var i := 0;
      while |running| < MAX_ACTIVE_TASKS && i < |ts|
        invariant 0 <= i <= |ts| && running == old(running) + ts[..i]
        invariant i > 0 ==> |running| <= MAX_ACTIVE_TASKS
      {
        assert ts[..i + 1] == ts[..i] + [ts[i]];
        running := running + [ts[i]];
        i := i + 1;
      }
      rest := ts[i..];
    }

    /** Asks the dialer for tasks and starts as many as possible. */
    method StartDialer(random: seq<Node>, now: int, ghost st: State) returns (ghost st': State)
      requires Shows(st) && StaticOk(dialer.statics) && dialer.cfg == DialConfig(s)
      modifies this`running, this`queued, dialer
      ensures NewRound(s, st, st', now) && Shows(st')
    {
      var flags := Flags(peers);
      FlagsAgree(peers);
      var b := dialer.Schedule(|running| + |queued|, flags, random, now);
      var rest := StartTasks(Tasks(b));
      queued := queued + rest;
      st' := StartNew(st, Tasks(b)).(d := dialer.View(), clock := now);
      RoundBy(s, st, st', dialer.View(), now, b);
    }

    /** One scheduling round. */
    method ScheduleTasks(random: seq<Node>, now: int, ghost st: State) returns (ghost st': State)
      requires Shows(st) && StaticOk(dialer.statics) && dialer.cfg == DialConfig(s) && now >= st.clock
      modifies this`running, this`queued, dialer
      ensures Round(s, st, st', now) && Shows(st')
    {
      ghost var st1 := StartQueued(st);
      queued := StartTasks(queued);
      st' := st1.(clock := now);
      if |running| < MAX_ACTIVE_TASKS {
        st' := StartDialer(random, now, st1);
      }
    }

    /** The first occurrence of a finished task leaves the running ones. */
    method DelTask(t: Task) returns (ghost i: nat)
      requires t in running
      modifies this`running
      ensures i < |old(running)| && old(running)[i] == t && running == Without(old(running), i)
    {
      var k := 0;
      while running[k] != t
        invariant 0 <= k < |running| && t in running[k..] && running == old(running)
        decreases |running| - k
      {
        assert running[k..] == [running[k]] + running[k + 1..];
        k := k + 1;
      }
      i := k;
      running := running[..k] + running[k + 1..];
    }

    method OnTaskDone(t: Task, now: int, results: seq<Node>, ghost st: State) returns (ghost i: nat)
      requires Shows(st) && t in running && now >= st.clock
      modifies this`running, dialer
      ensures i < |st.running| && Shows(TaskDone(st, i, now, results))
    {
      match t {
        case Dial(d) => dialer.DialDone(d, now);
        case Discover => dialer.LookupDone(results);
        case Wait =>
      }
      i := DelTask(t);
    }

    method OnAddPeer(c: Conn, matching: bool, ghost st: State) returns (v: Verdict)
      requires Shows(st)
      modifies this`peers, this`inboundCount
      ensures v == ProtoChecks(s, st.peers, st.inboundCount, c, matching) && Shows(AddPeer(s, st, c, matching))
    {
      v := ProtoChecks(s, peers, inboundCount, c, matching);
      if v == Accept {
        peers := peers[c.id := c];
        if c.inbound {
          inboundCount := inboundCount + 1;
        }
      }
    }

    method OnDropPeer(id: nat, ghost st: State)
      requires Shows(st) && id in peers
      modifies this`peers, this`inboundCount
      ensures Shows(DropPeer(st, id))
    {
      if peers[id].inbound {
        inboundCount := inboundCount - 1;
      }
      peers := peers - {id};
    }
  }
}
