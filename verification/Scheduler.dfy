/**
 The retrieval scheduler of one bloom bit (common/bloombits/scheduler.go): any number of
 pipelines share it; each asks for sections and gets their vectors back in its own order,
 while every section is requested from the distributor only once.

 Each pipeline is two goroutines: one registers sections and queues them, the other waits
 for queued sections and outputs their vectors.
 */
module Scheduler {

  /** A byte slice, which may be nil. */
  datatype Slice = Nil | Bytes(b: seq<bv8>)

  /** A response: the cached vector, and how often its `done` channel was closed. */
  datatype Response = Response(cached: Slice, closes: nat)

  /** The requesting goroutine: waiting for input, about to send to `dist`, or about to send to `pend`. */
  datatype Requester = Idle | ToDist(s: nat) | ToPend(s: nat)

  /** The delivering goroutine: waiting for a pending section, or for its response. */
  datatype Deliverer = Ready | Waiting(s: nat)

  /** `seen` is the input taken so far, `out` the vectors output so far. */
  datatype Pipe = Pipe(input: seq<nat>, seen: seq<nat>, req: Requester, pend: seq<nat>, del: Deliverer, out: seq<Slice>)

  datatype State = State(responses: map<nat, Response>, pipes: seq<Pipe>, dist: seq<nat>)

  datatype Action =
    | Take(p: nat)
    | Push(p: nat)
    | Pend(p: nat)
    | Await(p: nat)
    | Output(p: nat)
    | Deliver(sections: seq<nat>, data: seq<Slice>)

  // -------------------------------------------------------------------- the steps

  /** Registering a section: a new response unless there is one. */
  function Register(rs: map<nat, Response>, s: nat): map<nat, Response> {
    if s in rs then rs else rs[s := Response(Nil, 0)]
  }

  /** One delivered vector: stored and announced, unless nobody asked or one is there already. */
  function DeliverOne(rs: map<nat, Response>, s: nat, data: Slice): map<nat, Response> {
    if s in rs && rs[s].cached == Nil then rs[s := Response(data, rs[s].closes + 1)] else rs
  }

  function DeliverAll(rs: map<nat, Response>, sections: seq<nat>, data: seq<Slice>): map<nat, Response>
    requires |sections| <= |data|
    decreases |sections|
  {
    if |sections| == 0 then rs
    else var n := |sections| - 1;
         DeliverOne(DeliverAll(rs, sections[..n], data), sections[n], data[n])
  }

  /** Responses that were never served are forgotten. */
  function Reset(rs: map<nat, Response>): map<nat, Response> {
    map s | s in rs && rs[s].cached != Nil :: rs[s]
  }

  ghost predicate Enabled(st: State, a: Action) {
    match a
    case Take(p) => p < |st.pipes| && st.pipes[p].req == Idle && |st.pipes[p].input| > 0
    case Push(p) => p < |st.pipes| && st.pipes[p].req.ToDist?
    case Pend(p) => p < |st.pipes| && st.pipes[p].req.ToPend?
    case Await(p) => p < |st.pipes| && st.pipes[p].del == Ready && |st.pipes[p].pend| > 0
    case Output(p) =>
      p < |st.pipes| && st.pipes[p].del.Waiting? && st.pipes[p].del.s in st.responses
      && st.responses[st.pipes[p].del.s].closes > 0
    case Deliver(sections, data) => |sections| <= |data| && forall i :: 0 <= i < |data| ==> data[i] != Nil
  }

  function SetPipe(st: State, p: nat, g: Pipe): State
    requires p < |st.pipes|
  {
    st.(pipes := st.pipes[p := g])
  }

  ghost function Step(st: State, a: Action): State
    requires Enabled(st, a)
  {
    match a
    case Take(p) =>
      var g := st.pipes[p];
      var s := g.input[0];
      var req := if s in st.responses then ToPend(s) else ToDist(s);
      SetPipe(st, p, g.(input := g.input[1..], seen := g.seen + [s], req := req)).(responses := Register(st.responses, s))
    case Push(p) =>
      var g := st.pipes[p];
      SetPipe(st, p, g.(req := ToPend(g.req.s))).(dist := st.dist + [g.req.s])
    case Pend(p) =>
      var g := st.pipes[p];
      SetPipe(st, p, g.(req := Idle, pend := g.pend + [g.req.s]))
    case Await(p) =>
      var g := st.pipes[p];
      SetPipe(st, p, g.(pend := g.pend[1..], del := Waiting(g.pend[0])))
    case Output(p) =>
      var g := st.pipes[p];
      SetPipe(st, p, g.(del := Ready, out := g.out + [st.responses[g.del.s].cached]))
    case Deliver(sections, data) => st.(responses := DeliverAll(st.responses, sections, data))
  }

  // ---------------------------------------------------------------- the invariant

  /** The sections a pipeline has taken and not output, oldest first. */
  function Open(g: Pipe): seq<nat> {
    (if g.del.Waiting? then [g.del.s] else []) + g.pend + (if g.req == Idle then [] else [g.req.s])
  }

  /** Output is in input order, and nothing taken is dropped. */
  ghost predicate InOrder(g: Pipe) {
    |g.out| <= |g.seen| && g.seen[|g.out|..] == Open(g)
  }

  /** Every output is the vector of its section. */
  ghost predicate Faithful(g: Pipe, rs: map<nat, Response>) {
    |g.out| <= |g.seen| && forall k :: 0 <= k < |g.out| ==>
      g.seen[k] in rs && g.out[k] != Nil && rs[g.seen[k]].cached == g.out[k]
  }

  /** Everything taken is registered. */
  ghost predicate Registered(g: Pipe, rs: map<nat, Response>) {
    forall k :: 0 <= k < |g.seen| ==> g.seen[k] in rs
  }

  ghost predicate PipeOk(g: Pipe, rs: map<nat, Response>) {
    InOrder(g) && Faithful(g, rs) && Registered(g, rs)
  }

  ghost predicate PipesOk(pipes: seq<Pipe>, rs: map<nat, Response>) {
    forall p :: 0 <= p < |pipes| ==> PipeOk(pipes[p], rs)
  }

  /** `done` is closed once, when the vector is stored. */
  ghost predicate ClosedOnce(rs: map<nat, Response>) {
    forall s :: s in rs ==> rs[s].closes == if rs[s].cached == Nil then 0 else 1
  }

  function Asking(g: Pipe, s: nat): nat {
    if g.req == ToDist(s) then 1 else 0
  }

  /** How many pipelines are about to request a section. */
  function AskingAll(pipes: seq<Pipe>, s: nat): nat {
    if |pipes| == 0 then 0 else Asking(pipes[0], s) + AskingAll(pipes[1..], s)
  }

  function Times(ss: seq<nat>, s: nat): nat {
    multiset(ss)[s]
  }

  /** A section registered since the reset was requested once or is about to be; no other was. */
  ghost predicate RequestedOnce(st: State, kept: set<nat>, s: nat) {
    Times(st.dist, s) + AskingAll(st.pipes, s) == if s in st.responses && s !in kept then 1 else 0
  }

  ghost predicate AllRequestedOnce(st: State, kept: set<nat>) {
    forall s :: RequestedOnce(st, kept, s)
  }

  /** `kept` are the sections whose vectors survived the last reset. */
  ghost predicate Inv(st: State, kept: set<nat>) {
    && PipesOk(st.pipes, st.responses)
    && ClosedOnce(st.responses)
    && AllRequestedOnce(st, kept)
    && forall s :: s in kept ==> s in st.responses
  }

  // ------------------------------------------------------------- responses only grow

  /** No response goes away, and no stored vector changes. */
  ghost predicate Grows(rs: map<nat, Response>, rs': map<nat, Response>) {
    forall s :: s in rs ==> s in rs' && (rs[s].cached != Nil ==> rs'[s] == rs[s])
  }

  lemma RegisterGrows(rs: map<nat, Response>, s: nat)
    requires ClosedOnce(rs)
    ensures Grows(rs, Register(rs, s)) && ClosedOnce(Register(rs, s))
  {
  }

  lemma {:induction false} DeliverGrows(rs: map<nat, Response>, sections: seq<nat>, data: seq<Slice>)
    requires |sections| <= |data| && ClosedOnce(rs) && forall i :: 0 <= i < |data| ==> data[i] != Nil
    ensures Grows(rs, DeliverAll(rs, sections, data)) && ClosedOnce(DeliverAll(rs, sections, data))
    ensures DeliverAll(rs, sections, data).Keys == rs.Keys
    decreases |sections|
  {
    if |sections| > 0 {
      DeliverGrows(rs, sections[..|sections| - 1], data);
    }
  }

  lemma PipeGrows(g: Pipe, rs: map<nat, Response>, rs': map<nat, Response>)
    requires PipeOk(g, rs) && Grows(rs, rs')
    ensures PipeOk(g, rs')
  {
    forall k | 0 <= k < |g.out|
      ensures g.seen[k] in rs' && rs'[g.seen[k]].cached == g.out[k]
    {
      assert g.seen[k] in rs;
    }
    forall k | 0 <= k < |g.seen|
      ensures g.seen[k] in rs'
    {
      assert g.seen[k] in rs;
    }
  }

  lemma PipesUpdate(pipes: seq<Pipe>, p: nat, g: Pipe, rs: map<nat, Response>, rs': map<nat, Response>)
    requires p < |pipes| && PipesOk(pipes, rs) && Grows(rs, rs') && PipeOk(g, rs')
    ensures PipesOk(pipes[p := g], rs')
  {
    var next := pipes[p := g];
    forall q | 0 <= q < |next|
      ensures PipeOk(next[q], rs')
    {
      if q != p {
        assert PipeOk(pipes[q], rs);
        PipeGrows(pipes[q], rs, rs');
      }
    }
  }

  lemma {:induction false} AskingUpdate(pipes: seq<Pipe>, p: nat, g: Pipe, s: nat)
    requires p < |pipes|
    ensures AskingAll(pipes[p := g], s) + Asking(pipes[p], s) == AskingAll(pipes, s) + Asking(g, s)
  {
    if p == 0 {
      assert pipes[0 := g][1..] == pipes[1..];
    } else {
      assert pipes[p := g][1..] == pipes[1..][p - 1 := g];
      AskingUpdate(pipes[1..], p - 1, g, s);
    }
  }

  // --------------------------------------------------------------- every step keeps it

  /** Taking a section. */
  lemma TakePipe(g: Pipe, rs: map<nat, Response>)
    requires PipeOk(g, rs) && g.req == Idle && |g.input| > 0
    ensures var s := g.input[0];
            forall req :: req == ToPend(s) || req == ToDist(s) ==>
              PipeOk(g.(input := g.input[1..], seen := g.seen + [s], req := req), Register(rs, s))
  {
    var s := g.input[0];
    forall req | req == ToPend(s) || req == ToDist(s)
      ensures PipeOk(g.(input := g.input[1..], seen := g.seen + [s], req := req), Register(rs, s))
    {
      var h := g.(input := g.input[1..], seen := g.seen + [s], req := req);
      assert h.seen[|h.out|..] == g.seen[|g.out|..] + [s];
      assert Open(h) == Open(g) + [s];
    }
  }

  lemma TakeKeeps(st: State, kept: set<nat>, p: nat)
    requires Inv(st, kept) && Enabled(st, Take(p))
    ensures Inv(Step(st, Take(p)), kept)
  {
    var next := Step(st, Take(p));
    var g := st.pipes[p];
    var s := g.input[0];
    assert PipeOk(g, st.responses);
    TakePipe(g, st.responses);
    RegisterGrows(st.responses, s);
    PipesUpdate(st.pipes, p, next.pipes[p], st.responses, next.responses);
    forall x
      ensures RequestedOnce(next, kept, x)
    {
      assert RequestedOnce(st, kept, x);
      AskingUpdate(st.pipes, p, next.pipes[p], x);
    }
  }

  /** A step of one pipeline that registers and requests nothing. */
  lemma PipeStepKeeps(st: State, kept: set<nat>, p: nat, g: Pipe)
    requires Inv(st, kept) && p < |st.pipes| && PipeOk(g, st.responses)
    requires forall s :: Asking(g, s) == Asking(st.pipes[p], s)
    ensures Inv(SetPipe(st, p, g), kept)
  {
    PipesUpdate(st.pipes, p, g, st.responses, st.responses);
    forall x
      ensures RequestedOnce(SetPipe(st, p, g), kept, x)
    {
      assert RequestedOnce(st, kept, x);
      AskingUpdate(st.pipes, p, g, x);
    }
  }

  lemma PushKeeps(st: State, kept: set<nat>, p: nat)
    requires Inv(st, kept) && Enabled(st, Push(p))
    ensures Inv(Step(st, Push(p)), kept)
  {
    var next := Step(st, Push(p));
    var g, h := st.pipes[p], next.pipes[p];
    assert PipeOk(g, st.responses);
    assert Open(h) == Open(g);
    PipesUpdate(st.pipes, p, h, st.responses, st.responses);
    forall x
      ensures RequestedOnce(next, kept, x)
    {
      assert RequestedOnce(st, kept, x);
      AskingUpdate(st.pipes, p, h, x);
    }
  }

  lemma PendKeeps(st: State, kept: set<nat>, p: nat)
    requires Inv(st, kept) && Enabled(st, Pend(p))
    ensures Inv(Step(st, Pend(p)), kept)
  {
    var g := st.pipes[p];
    var h := Step(st, Pend(p)).pipes[p];
    assert PipeOk(g, st.responses);
    assert Open(h) == Open(g);
    PipeStepKeeps(st, kept, p, h);
  }

  lemma AwaitKeeps(st: State, kept: set<nat>, p: nat)
    requires Inv(st, kept) && Enabled(st, Await(p))
    ensures Inv(Step(st, Await(p)), kept)
  {
    var g := st.pipes[p];
    var h := Step(st, Await(p)).pipes[p];
    assert PipeOk(g, st.responses);
    assert g.pend == [g.pend[0]] + g.pend[1..];
    assert Open(h) == Open(g);
    PipeStepKeeps(st, kept, p, h);
  }

  lemma OutputKeeps(st: State, kept: set<nat>, p: nat)
    requires Inv(st, kept) && Enabled(st, Output(p))
    ensures Inv(Step(st, Output(p)), kept)
  {
    var g := st.pipes[p];
    var h := Step(st, Output(p)).pipes[p];
    var s := g.del.s;
    assert PipeOk(g, st.responses);
    assert st.responses[s].cached != Nil;
    assert Open(g) == [s] + Open(h);
    assert g.seen[|g.out|..][0] == s;
    assert g.seen[|g.out|] == s;
    assert h.seen[|h.out|..] == g.seen[|g.out|..][1..] == Open(h);
    PipeStepKeeps(st, kept, p, h);
  }

  lemma DeliverKeeps(st: State, kept: set<nat>, sections: seq<nat>, data: seq<Slice>)
    requires Inv(st, kept) && Enabled(st, Deliver(sections, data))
    ensures Inv(Step(st, Deliver(sections, data)), kept)
  {
    var next := Step(st, Deliver(sections, data));
    DeliverGrows(st.responses, sections, data);
    forall q | 0 <= q < |st.pipes|
      ensures PipeOk(st.pipes[q], next.responses)
    {
      PipeGrows(st.pipes[q], st.responses, next.responses);
    }
    forall x
      ensures RequestedOnce(next, kept, x)
    {
      assert RequestedOnce(st, kept, x);
    }
  }

  lemma StepKeeps(st: State, kept: set<nat>, a: Action)
    requires Inv(st, kept) && Enabled(st, a)
    ensures Inv(Step(st, a), kept)
  {
    match a
    case Take(p) => TakeKeeps(st, kept, p);
    case Push(p) => PushKeeps(st, kept, p);
    case Pend(p) => PendKeeps(st, kept, p);
    case Await(p) => AwaitKeeps(st, kept, p);
    case Output(p) => OutputKeeps(st, kept, p);
    case Deliver(sections, data) => DeliverKeeps(st, kept, sections, data);
  }

  // ------------------------------------------------------------------ runs and sessions

  ghost predicate IsRun(st: State, run: seq<Action>)
    decreases |run|
  {
    |run| == 0 || (Enabled(st, run[0]) && IsRun(Step(st, run[0]), run[1..]))
  }

  ghost function Exec(st: State, run: seq<Action>): State
    requires IsRun(st, run)
    decreases |run|
  {
    if |run| == 0 then st else Exec(Step(st, run[0]), run[1..])
  }

  /** What each pipeline took and has left is what it was given. */
  ghost predicate InputsOk(st: State, inputs: seq<seq<nat>>) {
    |st.pipes| == |inputs| && forall p :: 0 <= p < |inputs| ==> st.pipes[p].seen + st.pipes[p].input == inputs[p]
  }

  lemma InputsStep(st: State, inputs: seq<seq<nat>>, a: Action)
    requires InputsOk(st, inputs) && Enabled(st, a)
    ensures InputsOk(Step(st, a), inputs)
  {
    if a.Take? {
      var g := st.pipes[a.p];
      assert g.input == [g.input[0]] + g.input[1..];
      assert (g.seen + [g.input[0]]) + g.input[1..] == g.seen + g.input;
    }
  }

  lemma {:induction false} RunKeeps(st: State, kept: set<nat>, inputs: seq<seq<nat>>, run: seq<Action>)
    requires Inv(st, kept) && InputsOk(st, inputs) && IsRun(st, run)
    ensures Inv(Exec(st, run), kept) && InputsOk(Exec(st, run), inputs)
    decreases |run|
  {
    if |run| > 0 {
      StepKeeps(st, kept, run[0]);
      InputsStep(st, inputs, run[0]);
      RunKeeps(Step(st, run[0]), kept, inputs, run[1..]);
    }
  }

  /** A session: the responses left by earlier ones are reset and the pipelines start. */
  function Session(rs: map<nat, Response>, inputs: seq<seq<nat>>): State {
    State(Reset(rs), seq(|inputs|, p requires 0 <= p < |inputs| => Pipe(inputs[p], [], Idle, [], Ready, [])), [])
  }

  lemma SessionInv(rs: map<nat, Response>, inputs: seq<seq<nat>>)
    requires ClosedOnce(rs)
    ensures Inv(Session(rs, inputs), Reset(rs).Keys) && InputsOk(Session(rs, inputs), inputs)
  {
    var st := Session(rs, inputs);
    forall s
      ensures RequestedOnce(st, Reset(rs).Keys, s)
    {
      NoToDist(st.pipes, s);
    }
  }

  /**
   For every interleaving of a session, whatever earlier sessions left behind: every
   section is requested at most once, and only if its vector was not there already; every
   pipeline outputs the stored vectors of its own input, in order; no channel is closed
   twice; and the responses are fit for the next session.
   */
  lemma EveryInterleaving(rs: map<nat, Response>, inputs: seq<seq<nat>>, run: seq<Action>)
    requires ClosedOnce(rs) && IsRun(Session(rs, inputs), run)
    ensures var st := Exec(Session(rs, inputs), run);
            && (forall s :: Times(st.dist, s) <= if s in Reset(rs) then 0 else 1)
            && |st.pipes| == |inputs|
            && (forall p :: 0 <= p < |inputs| ==>
                 var out := st.pipes[p].out;
                 |out| <= |inputs[p]| && forall k :: 0 <= k < |out| ==>
                   inputs[p][k] in st.responses && out[k] != Nil && out[k] == st.responses[inputs[p][k]].cached)
            && ClosedOnce(st.responses)
  {
    SessionInv(rs, inputs);
    RunKeeps(Session(rs, inputs), Reset(rs).Keys, inputs, run);
    var st := Exec(Session(rs, inputs), run);
    forall s
      ensures Times(st.dist, s) <= if s in Reset(rs) then 0 else 1
    {
      assert RequestedOnce(st, Reset(rs).Keys, s);
    }
    forall p | 0 <= p < |inputs|
      ensures |st.pipes[p].out| <= |inputs[p]|
      ensures forall k :: 0 <= k < |st.pipes[p].out| ==>
        inputs[p][k] in st.responses && st.pipes[p].out[k] != Nil && st.pipes[p].out[k] == st.responses[inputs[p][k]].cached
    {
      assert PipeOk(st.pipes[p], st.responses);
      assert forall k :: 0 <= k < |st.pipes[p].seen| ==> st.pipes[p].seen[k] == inputs[p][k];
    }
  }

  /** The goroutines of the pipelines cannot move. */
  ghost predicate Quiet(st: State) {
    forall p :: !Enabled(st, Take(p)) && !Enabled(st, Push(p)) && !Enabled(st, Pend(p)) && !Enabled(st, Await(p)) && !Enabled(st, Output(p))
  }

  /** Once everything requested was delivered and nothing moves, every pipeline has all its vectors. */
  lemma Completes(st: State, kept: set<nat>, inputs: seq<seq<nat>>, p: nat)
    requires Inv(st, kept) && InputsOk(st, inputs) && Quiet(st) && p < |inputs|
    requires forall s :: s in kept || s in st.dist ==> s in st.responses && st.responses[s].cached != Nil
    ensures |st.pipes[p].out| == |inputs[p]|
  {
    var g := st.pipes[p];
    assert PipeOk(g, st.responses);
    forall q | 0 <= q < |st.pipes|
      ensures !st.pipes[q].req.ToDist?
    {
      assert !Enabled(st, Push(q));
    }
    if g.del.Waiting? {
      WaitingIsServed(st, kept, p);
    }
    assert !Enabled(st, Output(p));
    assert !Enabled(st, Take(p)) && !Enabled(st, Push(p)) && !Enabled(st, Pend(p)) && !Enabled(st, Await(p));
    assert Open(g) == [];
  }

  lemma WaitingIsServed(st: State, kept: set<nat>, p: nat)
    requires Inv(st, kept) && p < |st.pipes| && st.pipes[p].del.Waiting?
    requires forall q :: 0 <= q < |st.pipes| ==> !st.pipes[q].req.ToDist?
    requires forall s :: s in kept || s in st.dist ==> s in st.responses && st.responses[s].cached != Nil
    ensures Enabled(st, Output(p))
  {
    var g := st.pipes[p];
    var s := g.del.s;
    assert PipeOk(g, st.responses);
    assert Open(g)[0] == s;
    assert g.seen[|g.out|..][0] == s;
    assert g.seen[|g.out|] == s;
    assert RequestedOnce(st, kept, s);
    NoToDist(st.pipes, s);
    assert s in kept || s in st.dist;
  }

  lemma {:induction false} NoToDist(pipes: seq<Pipe>, s: nat)
    requires forall p :: 0 <= p < |pipes| ==> !pipes[p].req.ToDist?
    ensures AskingAll(pipes, s) == 0
  {
    if |pipes| > 0 {
      NoToDist(pipes[1..], s);
    }
  }

  /** What a delivery stores: the first vector given for a section that had none. */
  lemma {:induction false} DeliverStores(rs: map<nat, Response>, sections: seq<nat>, data: seq<Slice>, s: nat, i: nat)
    requires |sections| <= |data| && s in rs && rs[s].cached == Nil
    requires i < |sections| && sections[i] == s && data[i] != Nil && forall k :: 0 <= k < i ==> sections[k] != s
    ensures s in DeliverAll(rs, sections, data) && DeliverAll(rs, sections, data)[s].cached == data[i]
    decreases |sections|
  {
    var n := |sections| - 1;
    if i < n {
      DeliverStores(rs, sections[..n], data, s, i);
    } else {
      DeliverSkips(rs, sections[..n], data, s);
    }
  }

  lemma {:induction false} DeliverSkips(rs: map<nat, Response>, sections: seq<nat>, data: seq<Slice>, s: nat)
    requires |sections| <= |data| && s in rs && s !in sections
    ensures s in DeliverAll(rs, sections, data) && DeliverAll(rs, sections, data)[s] == rs[s]
    decreases |sections|
  {
    if |sections| > 0 {
      DeliverSkips(rs, sections[..|sections| - 1], data, s);
    }
  }

  /**
   A delivery keeps the close count right exactly when it is not a nil vector for a
   section still waiting; that is what the distributor's filtering is for.
   */
  lemma CloseExact(rs: map<nat, Response>, s: nat, data: Slice)
    requires ClosedOnce(rs)
    ensures ClosedOnce(DeliverOne(rs, s, data)) <==> data != Nil || !(s in rs && rs[s].cached == Nil)
  {
    if data == Nil && s in rs && rs[s].cached == Nil {
      assert s in DeliverOne(rs, s, data);
    }
  }

  /** A nil vector delivered twice closes the channel twice. */
  lemma NilClosesTwice()
    ensures var rs := Register(map[], 7);
            var twice := DeliverAll(rs, [7, 7], [Nil, Nil]);
            7 in twice && twice[7].closes == 2
  {
    var rs := Register(map[], 7);
    assert [7, 7][..1] == [7] && [7][..0] == [];
    assert DeliverAll(rs, [], [Nil, Nil]) == rs;
    assert DeliverAll(rs, [7], [Nil, Nil]) == rs[7 := Response(Nil, 1)];
  }

  // ---------------------------------------------------------------- the scheduler object

  class Table {
    var responses: map<nat, Response>

    constructor ()
      ensures responses == map[]
    {
      responses := map[];
    }

    /** The locked part of taking a section. */
    method Enter(section: nat) returns (unique: bool)
      modifies this
      ensures unique <==> section !in old(responses)
      ensures responses == Register(old(responses), section)
    {
      unique := false;
      if section !in responses {
        responses := responses[section := Response(Nil, 0)];
        unique := true;
      }
    }

    method Accept(sections: seq<nat>, data: seq<Slice>)
      requires |sections| <= |data|
      modifies this
      ensures responses == DeliverAll(old(responses), sections, data)
    {
      for i := 0 to |sections|
        invariant responses == DeliverAll(old(responses), sections[..i], data)
      {
        assert sections[..i + 1][..i] == sections[..i];
        var s := sections[i];
        if s in responses && responses[s].cached == Nil {
          responses := responses[s := Response(data[i], responses[s].closes + 1)];
        }
      }
      assert sections[..|sections|] == sections;
    }

    method Clear()
      modifies this
      ensures responses == Reset(old(responses))
    {
      var keys := responses.Keys;
      while keys != {}
        invariant keys <= old(responses).Keys
        invariant responses == map s | s in old(responses) && (s in keys || old(responses)[s].cached != Nil) :: old(responses)[s]
        decreases keys
      {
        var section :| section in keys;
        if responses[section].cached == Nil {
          responses := responses - {section};
        }
        keys := keys - {section};
      }
    }
  }
}
