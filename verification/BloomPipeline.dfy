/**
 The daisy chain of sub-matchers as a concurrent pipeline (common/bloombits/matcher.go).

 Every sub-matcher is two goroutines: one reads an item, hands its section to the bit
 schedulers and queues the item; the other takes a queued item, collects the vectors the
 schedulers deliver next, and passes the merged item on if anything is left of it. Stages
 run in any interleaving. The theorem: the sink always holds a prefix of what processing
 the sections one by one would give, and all of it once nothing is queued.
 */
module BloomPipeline {

  datatype Option<T> = None | Some(value: T)

  /** A section and the bits still matching in it. */
  datatype Item = Item(section: nat, bits: seq<bool>)

  /**
   What a stage makes of an item when the schedulers deliver the vectors of a given
   section (which ought to be the item's own).
   */
  type Work = (nat, nat, Item) -> Option<Item>

  /** One sub-matcher: its input, the sections requested so far, how many were collected, the items in process. */
  datatype Stage = Stage(input: seq<Item>, requested: seq<nat>, collected: nat, process: seq<Item>)

  datatype State = State(source: seq<Item>, stages: seq<Stage>, sink: seq<Item>)

  datatype Action = Emit | Request(r: nat) | Process(r: nat)

  ghost predicate Enabled(st: State, a: Action) {
    match a
    case Emit => |st.source| > 0
    case Request(r) => r < |st.stages| && |st.stages[r].input| > 0
    case Process(r) =>
      r < |st.stages| && |st.stages[r].process| > 0 && st.stages[r].collected < |st.stages[r].requested|
  }

  /** Hands items to stage `r`, or to the sink after the last stage. */
  function Pass(st: State, r: nat, items: seq<Item>): State
    requires r <= |st.stages|
  {
    if r == |st.stages| then st.(sink := st.sink + items)
    else st.(stages := st.stages[r := st.stages[r].(input := st.stages[r].input + items)])
  }

  function Found(o: Option<Item>): seq<Item> {
    match o case None => [] case Some(x) => [x]
  }

  ghost function Step(f: Work, st: State, a: Action): State
    requires Enabled(st, a)
  {
    match a
    case Emit => Pass(st.(source := st.source[1..]), 0, st.source[..1])
    case Request(r) =>
      var g := st.stages[r];
      st.(stages := st.stages[r := g.(input := g.input[1..], requested := g.requested + [g.input[0].section],
                                      process := g.process + g.input[..1])])
    case Process(r) =>
      var g := st.stages[r];
      var out := Found(f(r, g.requested[g.collected], g.process[0]));
      Pass(st.(stages := st.stages[r := g.(collected := g.collected + 1, process := g.process[1..])]), r + 1, out)
  }

  // ------------------------------------------------------------- one by one

  /** Items through stage `r`, each with the vectors of its own section. */
  function Apply(f: Work, r: nat, items: seq<Item>): seq<Item> {
    if |items| == 0 then [] else Found(f(r, items[0].section, items[0])) + Apply(f, r, items[1..])
  }

  /** Items through stages `r` to `n - 1`. */
  function Through(f: Work, n: nat, r: nat, items: seq<Item>): seq<Item>
    requires r <= n
    decreases n - r
  {
    if r == n then items else Through(f, n, r + 1, Apply(f, r, items))
  }

  lemma Assoc<T>(a: seq<T>, b: seq<T>, c: seq<T>)
    ensures (a + b) + c == a + (b + c)
  {
  }

  lemma {:induction false} ApplyAppend(f: Work, r: nat, a: seq<Item>, b: seq<Item>)
    ensures Apply(f, r, a + b) == Apply(f, r, a) + Apply(f, r, b)
  {
    if |a| == 0 {
      assert a + b == b;
    } else {
      ApplyAppend(f, r, a[1..], b);
      assert (a + b)[1..] == a[1..] + b;
      Assoc(Found(f(r, a[0].section, a[0])), Apply(f, r, a[1..]), Apply(f, r, b));
    }
  }

  lemma {:induction false} ThroughAppend(f: Work, n: nat, r: nat, a: seq<Item>, b: seq<Item>)
    requires r <= n
    ensures Through(f, n, r, a + b) == Through(f, n, r, a) + Through(f, n, r, b)
    decreases n - r
  {
    if r < n {
      ApplyAppend(f, r, a, b);
      ThroughAppend(f, n, r + 1, Apply(f, r, a), Apply(f, r, b));
    }
  }

  lemma {:induction false} ThroughNone(f: Work, n: nat, r: nat)
    requires r <= n
    ensures Through(f, n, r, []) == []
    decreases n - r
  {
    if r < n {
      ThroughNone(f, n, r + 1);
    }
  }

  /** What is queued in stage `r`, oldest first. */
  function Queued(g: Stage): seq<Item> {
    g.process + g.input
  }

  /** What stages `r` and later will still put into the sink, in order. */
  function Pending(f: Work, stages: seq<Stage>, r: nat): seq<Item>
    requires r <= |stages|
    decreases |stages| - r
  {
    if r == |stages| then [] else Pending(f, stages, r + 1) + Through(f, |stages|, r, Queued(stages[r]))
  }

  lemma {:induction false} PendingFrame(f: Work, a: seq<Stage>, b: seq<Stage>, r: nat)
    requires |a| == |b| && r <= |a|
    requires forall k :: r <= k < |a| ==> Queued(a[k]) == Queued(b[k])
    ensures Pending(f, a, r) == Pending(f, b, r)
    decreases |a| - r
  {
    if r < |a| {
      PendingFrame(f, a, b, r + 1);
    }
  }

  /** The requests not yet collected are for the items in process, in the same order. */
  predicate Aligned(g: Stage) {
    && g.collected + |g.process| == |g.requested|
    && forall k :: 0 <= k < |g.process| ==> g.requested[g.collected + k] == g.process[k].section
  }

  ghost predicate AllAligned(stages: seq<Stage>) {
    forall r :: 0 <= r < |stages| ==> Aligned(stages[r])
  }

  /** Sink, queues and source add up to the result. */
  ghost predicate Conserves(f: Work, st: State, result: seq<Item>) {
    st.sink + (Pending(f, st.stages, 0) + Through(f, |st.stages|, 0, st.source)) == result
  }

  ghost predicate Inv(f: Work, st: State, result: seq<Item>) {
    AllAligned(st.stages) && Conserves(f, st, result)
  }

  /** Changing the queue of stage `r` at either end changes what is pending at that place. */
  lemma {:induction false} PendingSplit(f: Work, a: seq<Stage>, b: seq<Stage>, r: nat, low: nat, gone: seq<Item>)
    requires |a| == |b| && low <= r <= |a|
    requires forall k :: low <= k < r ==> Queued(a[k]) == Queued(b[k])
    requires gone + Pending(f, b, r) == Pending(f, a, r)
    ensures gone + Pending(f, b, low) == Pending(f, a, low)
    decreases r - low
  {
    if low < r {
      PendingSplit(f, a, b, r, low + 1, gone);
      Assoc(gone, Pending(f, b, low + 1), Through(f, |a|, low, Queued(a[low])));
    }
  }

  /** Items handed to a stage are pending behind what it already has. */
  lemma PendingMore(f: Work, a: seq<Stage>, b: seq<Stage>, r: nat, items: seq<Item>)
    requires |a| == |b| && r < |a| && Queued(b[r]) == Queued(a[r]) + items
    requires forall k :: r < k < |a| ==> Queued(a[k]) == Queued(b[k])
    ensures Pending(f, b, r) == Pending(f, a, r) + Through(f, |a|, r, items)
  {
    PendingFrame(f, a, b, r + 1);
    ThroughAppend(f, |a|, r, Queued(a[r]), items);
    Assoc(Pending(f, a, r + 1), Through(f, |a|, r, Queued(a[r])), Through(f, |a|, r, items));
  }

  /** One item through one stage. */
  lemma ThroughHead(f: Work, n: nat, r: nat, x: Item, rest: seq<Item>)
    requires r < n
    ensures Through(f, n, r, [x] + rest) == Through(f, n, r + 1, Found(f(r, x.section, x))) + Through(f, n, r, rest)
  {
    ThroughAppend(f, n, r, [x], rest);
    var o := Found(f(r, x.section, x));
    assert Apply(f, r, [x]) == o + Apply(f, r, [x][1..]) == o;
  }

  lemma EmitKeeps(f: Work, st: State, result: seq<Item>)
    requires Inv(f, st, result) && Enabled(st, Emit)
    ensures Inv(f, Step(f, st, Emit), result)
  {
    var next := Step(f, st, Emit);
    var n := |st.stages|;
    var head, tail := st.source[..1], st.source[1..];
    assert st.source == head + tail;
    ThroughAppend(f, n, 0, head, tail);
    if n == 0 {
      Assoc(st.sink, head, tail);
    } else {
      assert Queued(next.stages[0]) == Queued(st.stages[0]) + head;
      PendingMore(f, st.stages, next.stages, 0, head);
      Assoc(Pending(f, st.stages, 0), Through(f, n, 0, head), Through(f, n, 0, tail));
    }
  }

  lemma RequestKeeps(f: Work, st: State, r: nat, result: seq<Item>)
    requires Inv(f, st, result) && Enabled(st, Request(r))
    ensures Inv(f, Step(f, st, Request(r)), result)
  {
    var next := Step(f, st, Request(r));
    var g, h := st.stages[r], next.stages[r];
    assert g.input == g.input[..1] + g.input[1..];
    Assoc(g.process, g.input[..1], g.input[1..]);
    assert Queued(h) == Queued(g);
    PendingFrame(f, st.stages, next.stages, 0);
  }

  /** A middle stage took an item in process and handed `out` on. */
  lemma ProcessInner(f: Work, a: seq<Stage>, b: seq<Stage>, r: nat, x: Item, out: seq<Item>)
    requires |a| == |b| && r + 1 < |a|
    requires Queued(a[r]) == [x] + Queued(b[r]) && out == Found(f(r, x.section, x))
    requires Queued(b[r + 1]) == Queued(a[r + 1]) + out
    requires forall k :: r + 1 < k < |a| ==> Queued(a[k]) == Queued(b[k])
    ensures Pending(f, b, r) == Pending(f, a, r)
  {
    var n := |a|;
    var p, t, rest := Pending(f, a, r + 1), Through(f, n, r + 1, out), Through(f, n, r, Queued(b[r]));
    PendingMore(f, a, b, r + 1, out);
    assert Pending(f, b, r) == (p + t) + rest;
    ThroughHead(f, n, r, x, Queued(b[r]));
    assert Pending(f, a, r) == p + (t + rest);
    Assoc(p, t, rest);
  }

  /** The last stage took an item in process and put `out` into the sink. */
  lemma ProcessLast(f: Work, a: seq<Stage>, b: seq<Stage>, r: nat, x: Item, out: seq<Item>)
    requires |a| == |b| == r + 1
    requires Queued(a[r]) == [x] + Queued(b[r]) && out == Found(f(r, x.section, x))
    ensures out + Pending(f, b, r) == Pending(f, a, r)
  {
    var n := |a|;
    var rest := Through(f, n, r, Queued(b[r]));
    assert Pending(f, b, r) == [] + rest == rest;
    ThroughHead(f, n, r, x, Queued(b[r]));
    assert Through(f, n, r + 1, out) == out;
    assert Pending(f, a, r) == [] + (out + rest) == out + rest;
  }

  /** What the processing step puts into the sink. */
  ghost function Gone(f: Work, st: State, r: nat): seq<Item>
    requires Enabled(st, Process(r))
  {
    var g := st.stages[r];
    if r + 1 == |st.stages| then Found(f(r, g.process[0].section, g.process[0])) else []
  }

  lemma ProcessPending(f: Work, st: State, r: nat)
    requires AllAligned(st.stages) && Enabled(st, Process(r))
    ensures var next := Step(f, st, Process(r));
            && next.sink == st.sink + Gone(f, st, r)
            && Gone(f, st, r) + Pending(f, next.stages, r) == Pending(f, st.stages, r)
  {
    var next := Step(f, st, Process(r));
    var g := st.stages[r];
    var x := g.process[0];
    assert Aligned(g);
    assert g.requested[g.collected + 0] == x.section;
    var out := Found(f(r, x.section, x));
    assert g.process == [x] + g.process[1..];
    Assoc([x], g.process[1..], g.input);
    if r + 1 < |st.stages| {
      var h := st.stages[r + 1];
      Assoc(h.process, h.input, out);
      ProcessInner(f, st.stages, next.stages, r, x, out);
      assert Gone(f, st, r) + Pending(f, next.stages, r) == Pending(f, next.stages, r);
    } else {
      ProcessLast(f, st.stages, next.stages, r, x, out);
    }
  }

  lemma Shift<T>(sink: seq<T>, gone: seq<T>, p: seq<T>, src: seq<T>)
    ensures (sink + gone) + (p + src) == sink + ((gone + p) + src)
  {
  }

  lemma ProcessKeeps(f: Work, st: State, r: nat, result: seq<Item>)
    requires Inv(f, st, result) && Enabled(st, Process(r))
    ensures Inv(f, Step(f, st, Process(r)), result)
  {
    var next := Step(f, st, Process(r));
    ProcessPending(f, st, r);
    PendingSplit(f, st.stages, next.stages, r, 0, Gone(f, st, r));
    Shift(st.sink, Gone(f, st, r), Pending(f, next.stages, 0), Through(f, |st.stages|, 0, st.source));
    ProcessAligned(f, st, r);
  }

  lemma ProcessAligned(f: Work, st: State, r: nat)
    requires AllAligned(st.stages) && Enabled(st, Process(r))
    ensures AllAligned(Step(f, st, Process(r)).stages)
  {
    var next := Step(f, st, Process(r));
    forall k | 0 <= k < |next.stages|
      ensures Aligned(next.stages[k])
    {
      assert Aligned(st.stages[k]);
    }
  }

  lemma StepKeeps(f: Work, st: State, a: Action, result: seq<Item>)
    requires Inv(f, st, result) && Enabled(st, a)
    ensures Inv(f, Step(f, st, a), result)
  {
    match a
    case Emit => EmitKeeps(f, st, result);
    case Request(r) => RequestKeeps(f, st, r, result);
    case Process(r) => ProcessKeeps(f, st, r, result);
  }

  // ------------------------------------------------------------------------- runs

  ghost predicate IsRun(f: Work, st: State, run: seq<Action>)
    decreases |run|
  {
    |run| == 0 || (Enabled(st, run[0]) && IsRun(f, Step(f, st, run[0]), run[1..]))
  }

  ghost function Exec(f: Work, st: State, run: seq<Action>): State
    requires IsRun(f, st, run)
    decreases |run|
  {
    if |run| == 0 then st else Exec(f, Step(f, st, run[0]), run[1..])
  }

  lemma {:induction false} RunKeeps(f: Work, st: State, run: seq<Action>, result: seq<Item>)
    requires Inv(f, st, result) && IsRun(f, st, run)
    ensures Inv(f, Exec(f, st, run), result)
    decreases |run|
  {
    if |run| > 0 {
      StepKeeps(f, st, run[0], result);
      RunKeeps(f, Step(f, st, run[0]), run[1..], result);
    }
  }

  /** Nothing queued, nothing in process, nothing requested. */
  function Start(source: seq<Item>, n: nat): State {
    State(source, seq(n, _ => Stage([], [], 0, [])), [])
  }

  lemma {:induction false} NothingPending(f: Work, stages: seq<Stage>, r: nat)
    requires r <= |stages| && forall k :: r <= k < |stages| ==> Queued(stages[k]) == []
    ensures Pending(f, stages, r) == []
    decreases |stages| - r
  {
    if r < |stages| {
      NothingPending(f, stages, r + 1);
      ThroughNone(f, |stages|, r);
    }
  }

  lemma StartInv(f: Work, source: seq<Item>, n: nat)
    ensures Inv(f, Start(source, n), Through(f, n, 0, source))
  {
    NothingPending(f, Start(source, n).stages, 0);
  }

  /** No goroutine can move: the source is drained and every stage is empty. */
  lemma StuckIsEmpty(f: Work, st: State)
    requires AllAligned(st.stages) && forall a :: !Enabled(st, a)
    ensures st.source == [] && Pending(f, st.stages, 0) == []
  {
    assert !Enabled(st, Emit);
    forall k | 0 <= k < |st.stages|
      ensures Queued(st.stages[k]) == []
    {
      assert !Enabled(st, Request(k)) && !Enabled(st, Process(k));
      assert Aligned(st.stages[k]);
    }
    NothingPending(f, st.stages, 0);
  }

  /**
   For every interleaving: the sink is at all times a prefix of what one-by-one
   processing gives, and once no goroutine can move it is all of it.
   */
  lemma EveryInterleaving(f: Work, source: seq<Item>, n: nat, run: seq<Action>)
    requires IsRun(f, Start(source, n), run)
    ensures var st := Exec(f, Start(source, n), run);
            && st.sink <= Through(f, n, 0, source)
            && ((forall a :: !Enabled(st, a)) ==> st.sink == Through(f, n, 0, source))
  {
    var result := Through(f, n, 0, source);
    StartInv(f, source, n);
    RunKeeps(f, Start(source, n), run, result);
    var st := Exec(f, Start(source, n), run);
    assert Inv(f, st, result);
    if forall a :: !Enabled(st, a) {
      StuckIsEmpty(f, st);
      ThroughNone(f, |st.stages|, 0);
    }
  }

  // -------------------------------------------------------------------- termination

  /** Moves left for the items of one stage, `left` moves before the sink. */
  function StageLoad(g: Stage, left: nat): nat {
    (left + 1) * |g.input| + left * |g.process|
  }

  /** Moves left for the items of stages `r` and later. */
  function Load(stages: seq<Stage>, r: nat): nat
    requires r <= |stages|
    decreases |stages| - r
  {
    if r == |stages| then 0
    else Load(stages, r + 1) + StageLoad(stages[r], 2 * (|stages| - r) - 1)
  }

  /** Moves left altogether. */
  function Moves(st: State): nat {
    (2 * |st.stages| + 1) * |st.source| + Load(st.stages, 0)
  }

  /** A stage changed: the total load changes by as much as its own. */
  lemma {:induction false} LoadUpdate(stages: seq<Stage>, r: nat, g: Stage, low: nat)
    requires low <= r < |stages|
    ensures var left := 2 * (|stages| - r) - 1;
            Load(stages[r := g], low) - StageLoad(g, left) == Load(stages, low) - StageLoad(stages[r], left)
    decreases r - low
  {
    if low < r {
      LoadUpdate(stages, r, g, low + 1);
    } else {
      LoadTail(stages, stages[r := g], r + 1);
    }
  }

  lemma {:induction false} LoadTail(a: seq<Stage>, b: seq<Stage>, r: nat)
    requires |a| == |b| && r <= |a| && forall k :: r <= k < |a| ==> a[k] == b[k]
    ensures Load(a, r) == Load(b, r)
    decreases |a| - r
  {
    if r < |a| {
      LoadTail(a, b, r + 1);
    }
  }

  lemma MulStep(k: nat, n: nat)
    ensures k * (n + 1) == k * n + k
  {
  }

  /** Handing on at most one item adds the moves it has left. */
  lemma PassLoad(st: State, r: nat, items: seq<Item>)
    requires r <= |st.stages| && |items| <= 1
    ensures Moves(Pass(st, r, items)) <= Moves(st) + 2 * (|st.stages| - r)
  {
    if r < |st.stages| {
      var g := st.stages[r];
      LoadUpdate(st.stages, r, g.(input := g.input + items), 0);
      MulStep(2 * (|st.stages| - r), |g.input|);
    }
  }

  lemma EmitMoves(f: Work, st: State)
    requires Enabled(st, Emit)
    ensures Moves(Step(f, st, Emit)) < Moves(st)
  {
    MulStep(2 * |st.stages| + 1, |st.source| - 1);
    PassLoad(st.(source := st.source[1..]), 0, st.source[..1]);
  }

  lemma RequestMoves(f: Work, st: State, r: nat)
    requires Enabled(st, Request(r))
    ensures Moves(Step(f, st, Request(r))) < Moves(st)
  {
    var g := st.stages[r];
    var left := 2 * (|st.stages| - r) - 1;
    LoadUpdate(st.stages, r, Step(f, st, Request(r)).stages[r], 0);
    MulStep(left + 1, |g.input| - 1);
    MulStep(left, |g.process|);
  }

  lemma ProcessMoves(f: Work, st: State, r: nat)
    requires Enabled(st, Process(r))
    ensures Moves(Step(f, st, Process(r))) < Moves(st)
  {
    var g := st.stages[r];
    var h := g.(collected := g.collected + 1, process := g.process[1..]);
    LoadUpdate(st.stages, r, h, 0);
    MulStep(2 * (|st.stages| - r) - 1, |g.process| - 1);
    PassLoad(st.(stages := st.stages[r := h]), r + 1, Found(f(r, g.requested[g.collected], g.process[0])));
  }

  /** Every run is finite: at most `2n + 1` moves for each section. */
  lemma {:induction false} RunBounded(f: Work, st: State, run: seq<Action>)
    requires IsRun(f, st, run)
    ensures |run| <= Moves(st)
    decreases |run|
  {
    if |run| > 0 {
      match run[0] {
        case Emit => EmitMoves(f, st);
        case Request(r) => RequestMoves(f, st, r);
        case Process(r) => ProcessMoves(f, st, r);
      }
      RunBounded(f, Step(f, st, run[0]), run[1..]);
    }
  }
}
