/**
 The event feed (common/event/feed.go): one-to-many delivery where `Send` works on a
 prefix of the case list in place, racing with subscription and unsubscription.

 A channel may be subscribed more than once; every subscription adds its own case.
 The entry for the removal channel at index 0 is not part of the lists here.
 */
module Feed {

  type Chan = nat

  /** A select case: a channel, and an identity that tells cases for one channel apart. */
  datatype Case = Case(id: nat, ch: Chan)

  // ---------------------------------------------------------------- case lists

  /** How many cases are for a channel. */
  function Count(cs: seq<Case>, ch: Chan): nat {
    if |cs| == 0 then 0 else (if cs[0].ch == ch then 1 else 0) + Count(cs[1..], ch)
  }

  /** `caseList.find`: the first case for a channel, or -1. */
  function Find(cs: seq<Case>, ch: Chan): (r: int)
    ensures -1 <= r < |cs|
    ensures r >= 0 ==> cs[r].ch == ch && forall i :: 0 <= i < r ==> cs[i].ch != ch
    ensures r == -1 ==> forall i :: 0 <= i < |cs| ==> cs[i].ch != ch
  {
    if |cs| == 0 then -1
    else if cs[0].ch == ch then 0
    else var r := Find(cs[1..], ch); if r == -1 then -1 else r + 1
  }

  /** `caseList.delete`. */
  function Delete(cs: seq<Case>, i: nat): seq<Case>
    requires i < |cs|
  {
    cs[..i] + cs[i + 1..]
  }

  /** The list after `cs[:m].deactivate(i)`: case `i` changes places with the last case of the prefix. */
  function Deactivate(cs: seq<Case>, i: nat, m: nat): seq<Case>
    requires i < m <= |cs|
  {
    cs[i := cs[m - 1]][m - 1 := cs[i]]
  }

  lemma {:induction false} CountAppend(a: seq<Case>, b: seq<Case>, ch: Chan)
    ensures Count(a + b, ch) == Count(a, ch) + Count(b, ch)
  {
    if |a| == 0 {
      assert a + b == b;
    } else {
      assert (a + b)[1..] == a[1..] + b;
      CountAppend(a[1..], b, ch);
    }
  }

  lemma CountDelete(cs: seq<Case>, i: nat, ch: Chan)
    requires i < |cs|
    ensures Count(Delete(cs, i), ch) == Count(cs, ch) - if cs[i].ch == ch then 1 else 0
  {
    assert cs == cs[..i] + ([cs[i]] + cs[i + 1..]);
    CountAppend(cs[..i], [cs[i]] + cs[i + 1..], ch);
    CountAppend([cs[i]], cs[i + 1..], ch);
    CountAppend(cs[..i], cs[i + 1..], ch);
  }

  lemma {:induction false} FindCounts(cs: seq<Case>, ch: Chan)
    ensures Find(cs, ch) >= 0 <==> Count(cs, ch) > 0
  {
    if |cs| > 0 {
      FindCounts(cs[1..], ch);
    }
  }

  lemma {:induction false} CountMultiset(a: seq<Case>, b: seq<Case>, ch: Chan)
    requires multiset(a) == multiset(b)
    ensures Count(a, ch) == Count(b, ch)
    decreases |a|
  {
    if |a| == 0 {
      assert |multiset(b)| == 0;
    } else {
      var c := a[0];
      assert c in multiset(a);
      var i :| 0 <= i < |b| && b[i] == c;
      DeleteMultiset(b, i);
      TailMultiset(a);
      MsCancel(multiset(a[1..]), multiset(Delete(b, i)), c);
      CountMultiset(a[1..], Delete(b, i), ch);
      CountDelete(b, i, ch);
    }
  }

  lemma TailMultiset(a: seq<Case>)
    requires |a| > 0
    ensures multiset(a) == multiset(a[1..]) + multiset{a[0]}
  {
    assert a == [a[0]] + a[1..];
  }

  lemma MsCancel(a: multiset<Case>, b: multiset<Case>, c: Case)
    requires a + multiset{c} == b + multiset{c}
    ensures a == b
  {
    assert a == (a + multiset{c}) - multiset{c};
    assert b == (b + multiset{c}) - multiset{c};
  }

  lemma DeleteMultiset(cs: seq<Case>, i: nat)
    requires i < |cs|
    ensures multiset(cs) == multiset(Delete(cs, i)) + multiset{cs[i]}
  {
    assert cs == cs[..i] + [cs[i]] + cs[i + 1..];
  }

  /** Overwriting a case with the last one and dropping the last one takes exactly that case out. */
  lemma SwapOut(p: seq<Case>, i: nat)
    requires i < |p|
    ensures multiset(p[i := p[|p| - 1]][..|p| - 1]) + multiset{p[i]} == multiset(p)
  {
    var last := |p| - 1;
    var u := p[i := p[last]];
    assert u == u[..last] + [u[last]];
    assert multiset(u) == multiset(p) - multiset{p[i]} + multiset{p[last]};
    assert u[last] == p[last];
  }

  /** Deactivating moves exactly one case from the prefix to the rest. */
  lemma DeactivateMultiset(cs: seq<Case>, i: nat, m: nat)
    requires i < m <= |cs|
    ensures var r := Deactivate(cs, i, m);
            && |r| == |cs|
            && multiset(r[..m - 1]) + multiset{cs[i]} == multiset(cs[..m])
            && multiset(r[m - 1..]) == multiset(cs[m..]) + multiset{cs[i]}
  {
    var r := Deactivate(cs, i, m);
    assert r[m - 1..] == [cs[i]] + cs[m..];
    SwapOut(cs[..m], i);
    assert r[..m - 1] == cs[..m][i := cs[..m][m - 1]][..m - 1];
  }

  lemma SplitMultiset(cs: seq<Case>, m: nat)
    requires m <= |cs|
    ensures multiset(cs) == multiset(cs[..m]) + multiset(cs[m..])
  {
    assert cs == cs[..m] + cs[m..];
  }

  // ------------------------------------------------------------ the state machine

  /** Where `Send`'s loop is: trying case `i` without blocking, or blocked in the select. */
  datatype Mode = Trying(i: nat) | Selecting

  /**
   The goroutine inside `Send`, if any: waiting to take the inbox over, or in the loop.
   `m` is the length of the aliased prefix `cases`. The rest records what happened
   since the inbox was merged: the list at the start, the cases that got the value, and
   the cases removed before and after getting it.
   */
  datatype Sender =
    | Idle
    | Locked
    | Sending(m: nat, mode: Mode, nsent: nat, start: seq<Case>, delivered: seq<Case>,
              goneUnsent: multiset<Case>, goneSent: multiset<Case>)

  /** A finished `Send`. */
  datatype Report = Report(nsent: nat, start: seq<Case>, delivered: seq<Case>, goneUnsent: multiset<Case>)

  datatype State = State(
    inbox: seq<Case>, sendCases: seq<Case>, sender: Sender,
    live: multiset<Chan>, removers: multiset<Chan>, nextId: nat, done: seq<Report>, panicked: bool)

  datatype Action =
    | Subscribe(ch: Chan)
    | Unsubscribe(ch: Chan)
    | RemoveDirect(ch: Chan)
    | Acquire
    | Merge
    | Try(ok: bool)
    | EndScan
    | SelectSend(k: nat)
    | SelectRemove(ch: Chan)

  const Empty := State([], [], Idle, multiset{}, multiset{}, 0, [], false)

  predicate Enabled(s: State, a: Action) {
    match a
    case Subscribe(_) => true
    case Unsubscribe(ch) => ch in s.live
    case RemoveDirect(ch) => s.sender.Idle? && ch in s.removers
    case Acquire => s.sender.Idle?
    case Merge => s.sender.Locked?
    case Try(_) => s.sender.Sending? && s.sender.mode.Trying? && s.sender.mode.i < s.sender.m <= |s.sendCases|
    case EndScan => s.sender.Sending? && s.sender.mode.Trying? && s.sender.mode.i >= s.sender.m
    case SelectSend(k) => s.sender.Sending? && s.sender.mode.Selecting? && k < s.sender.m <= |s.sendCases|
    case SelectRemove(ch) => s.sender.Sending? && s.sender.mode.Selecting? && ch in s.removers
  }

  /** The sender after case `c` of the prefix got the value. */
  function Delivered(d: Sender, c: Case, mode: Mode): (r: Sender)
    requires d.Sending? && d.m > 0
    ensures r.Sending?
  {
    d.(m := d.m - 1, mode := mode, nsent := d.nsent + 1, delivered := d.delivered + [c])
  }

  /** The sender after case `c` at `index` was deleted: the prefix shrinks if the case was in it. */
  function Removed(d: Sender, c: Case, index: nat): (r: Sender)
    requires d.Sending?
    ensures r.Sending?
  {
    if index < d.m then d.(m := d.m - 1, mode := Trying(0), goneUnsent := d.goneUnsent + multiset{c})
    else d.(mode := Trying(0), goneSent := d.goneSent + multiset{c})
  }

  /** Handing the value to case `k` and deactivating it. */
  function Deliver(s: State, k: nat, mode: Mode): State
    requires s.sender.Sending? && k < s.sender.m <= |s.sendCases|
  {
    s.(sendCases := Deactivate(s.sendCases, k, s.sender.m), sender := Delivered(s.sender, s.sendCases[k], mode))
  }

  function Step(s: State, a: Action): State
    requires Enabled(s, a)
  {
    match a
    case Subscribe(ch) =>
      s.(inbox := s.inbox + [Case(s.nextId, ch)], live := s.live + multiset{ch}, nextId := s.nextId + 1)
    case Unsubscribe(ch) =>
      var index := Find(s.inbox, ch);
      if index != -1 then s.(inbox := Delete(s.inbox, index), live := s.live - multiset{ch})
      else s.(removers := s.removers + multiset{ch}, live := s.live - multiset{ch})
    case RemoveDirect(ch) =>
      var index := Find(s.sendCases, ch);
      if index == -1 then s.(panicked := true)
      else s.(sendCases := Delete(s.sendCases, index), removers := s.removers - multiset{ch})
    case Acquire => s.(sender := Locked)
    case Merge =>
      var cs := s.sendCases + s.inbox;
      s.(sendCases := cs, inbox := [], sender := Sending(|cs|, Trying(0), 0, cs, [], multiset{}, multiset{}))
    case Try(ok) =>
      if ok then Deliver(s, s.sender.mode.i, s.sender.mode)
      else s.(sender := s.sender.(mode := Trying(s.sender.mode.i + 1)))
    case EndScan =>
      var d := s.sender;
      if d.m == 0 then s.(sender := Idle, done := s.done + [Report(d.nsent, d.start, d.delivered, d.goneUnsent)])
      else s.(sender := d.(mode := Selecting))
    case SelectSend(k) => Deliver(s, k, Trying(0))
    case SelectRemove(ch) =>
      var index := Find(s.sendCases, ch);
      if index == -1 then s.(panicked := true)
      else
        s.(sendCases := Delete(s.sendCases, index), removers := s.removers - multiset{ch},
           sender := Removed(s.sender, s.sendCases[index], index))
  }

  // -------------------------------------------------------------- the invariant

  /** Cases and live subscriptions balance, and removers never outnumber the cases they wait for. */
  ghost predicate Ledger(s: State) {
    forall ch :: Count(s.inbox, ch) + Count(s.sendCases, ch) == s.live[ch] + s.removers[ch]
              && s.removers[ch] <= Count(s.sendCases, ch)
  }

  /** No case is listed twice, and new cases are new. */
  ghost predicate Distinct(s: State) {
    Fresh(multiset(s.inbox) + multiset(s.sendCases), s.nextId)
  }

  ghost predicate Fresh(ms: multiset<Case>, next: nat) {
    Once(ms) && forall c :: c in ms ==> c.id < next
  }

  lemma FreshSmaller(a: multiset<Case>, b: multiset<Case>, next: nat)
    requires a <= b && Fresh(b, next)
    ensures Fresh(a, next)
  {
  }

  lemma FreshAdd(a: multiset<Case>, ch: Chan, next: nat)
    requires Fresh(a, next)
    ensures Fresh(a + multiset{Case(next, ch)}, next + 1)
  {
    assert Case(next, ch) !in a;
  }

  /**
   During `Send` the prefix holds the unsent cases: everything behind it got the value,
   everything there at the start is still there or was removed.
   */
  ghost predicate SendOk(cs: seq<Case>, d: Sender)
    requires d.Sending?
  {
    && d.m <= |cs|
    && (d.mode.Trying? ==> d.mode.i <= d.m)
    && d.nsent == |d.delivered|
    && multiset(d.start) == multiset(cs) + d.goneUnsent + d.goneSent
    && multiset(d.delivered) == multiset(cs[d.m..]) + d.goneSent
    && Once(multiset(d.start))
  }

  ghost predicate Once(ms: multiset<Case>) {
    forall c :: ms[c] <= 1
  }

  /** What a finished `Send` did: every case there at its start got the value once or was removed first, and never both. */
  ghost predicate ReportOk(r: Report) {
    && r.nsent == |r.delivered|
    && multiset(r.start) == multiset(r.delivered) + r.goneUnsent
    && Once(multiset(r.start))
  }

  ghost predicate Inv(s: State) {
    && !s.panicked
    && Ledger(s)
    && Distinct(s)
    && (s.sender.Sending? ==> SendOk(s.sendCases, s.sender))
    && forall r :: r in s.done ==> ReportOk(r)
  }

  lemma MoveOver(a: multiset<Case>, b: multiset<Case>, x: multiset<Case>)
    ensures a + (b + x) == (a + x) + b && a + b + x == a + x + b
  {
  }

  /** A deactivated case moves from the prefix to the delivered ones. */
  lemma DeliverBalances(cs: seq<Case>, m: nat, k: nat, delivered: seq<Case>, gone: multiset<Case>)
    requires k < m <= |cs| && multiset(delivered) == multiset(cs[m..]) + gone
    ensures var r := Deactivate(cs, k, m);
            && multiset(r) == multiset(cs)
            && multiset(delivered + [cs[k]]) == multiset(r[m - 1..]) + gone
  {
    var r := Deactivate(cs, k, m);
    DeactivateMultiset(cs, k, m);
    SplitMultiset(cs, m);
    SplitMultiset(r, m - 1);
    MoveOver(multiset(r[..m - 1]), multiset(cs[m..]), multiset{cs[k]});
    assert multiset(delivered + [cs[k]]) == multiset(delivered) + multiset{cs[k]};
    MoveOver(multiset{}, gone, multiset{cs[k]});
    MoveOver(multiset(cs[m..]), gone, multiset{cs[k]});
  }

  /** Deleting a case behind the prefix takes it out of the rest. */
  lemma DeleteBehind(cs: seq<Case>, m: nat, i: nat)
    requires m <= i < |cs|
    ensures multiset(cs[m..]) == multiset(Delete(cs, i)[m..]) + multiset{cs[i]}
  {
    DeleteMultiset(cs[m..], i - m);
    assert Delete(cs, i)[m..] == Delete(cs[m..], i - m);
  }

  lemma DeliverKeeps(cs: seq<Case>, d: Sender, k: nat, mode: Mode)
    requires d.Sending? && SendOk(cs, d) && k < d.m && (mode.Trying? ==> mode.i < d.m)
    ensures SendOk(Deactivate(cs, k, d.m), Delivered(d, cs[k], mode))
    ensures multiset(Deactivate(cs, k, d.m)) == multiset(cs)
  {
    DeliverBalances(cs, d.m, k, d.delivered, d.goneSent);
  }

  lemma RemovedKeeps(cs: seq<Case>, d: Sender, i: nat)
    requires d.Sending? && SendOk(cs, d) && i < |cs|
    ensures SendOk(Delete(cs, i), Removed(d, cs[i], i))
  {
    if i < d.m {
      RemoveUnsentKeeps(cs, d, i);
    } else {
      RemoveSentKeeps(cs, d, i);
    }
  }

  lemma RemoveUnsentKeeps(cs: seq<Case>, d: Sender, i: nat)
    requires d.Sending? && SendOk(cs, d) && i < d.m
    ensures SendOk(Delete(cs, i), Removed(d, cs[i], i))
  {
    DeleteMultiset(cs, i);
    assert Delete(cs, i)[d.m - 1..] == cs[d.m..];
    var a, x := multiset(Delete(cs, i)), multiset{cs[i]};
    assert multiset(d.start) == a + (d.goneUnsent + x) + d.goneSent;
  }

  lemma RemoveSentKeeps(cs: seq<Case>, d: Sender, i: nat)
    requires d.Sending? && SendOk(cs, d) && d.m <= i < |cs|
    ensures SendOk(Delete(cs, i), Removed(d, cs[i], i))
  {
    DeleteMultiset(cs, i);
    DeleteBehind(cs, d.m, i);
    var a, b := multiset(Delete(cs, i)), multiset(Delete(cs, i)[d.m..]);
    assert multiset(d.start) == a + d.goneUnsent + (d.goneSent + multiset{cs[i]});
    assert multiset(d.delivered) == b + (d.goneSent + multiset{cs[i]});
  }

  // ------------------------------------------------------- every step keeps it

  lemma SubscribeKeeps(s: State, ch: Chan)
    requires Inv(s)
    ensures Inv(Step(s, Subscribe(ch)))
  {
    var s' := Step(s, Subscribe(ch));
    var c := Case(s.nextId, ch);
    forall x ensures Count(s'.inbox, x) == Count(s.inbox, x) + if x == ch then 1 else 0 {
      CountAppend(s.inbox, [c], x);
    }
    FreshAdd(multiset(s.inbox) + multiset(s.sendCases), ch, s.nextId);
    assert multiset(s'.inbox) + multiset(s'.sendCases) == multiset(s.inbox) + multiset(s.sendCases) + multiset{c};
  }

  lemma UnsubscribeInbox(s: State, s': State, index: nat)
    requires Ledger(s) && Distinct(s) && index < |s.inbox| && s.inbox[index].ch in s.live
    requires s'.inbox == Delete(s.inbox, index) && s'.sendCases == s.sendCases && s'.nextId == s.nextId
    requires s'.removers == s.removers && s'.live == s.live - multiset{s.inbox[index].ch}
    ensures Ledger(s') && Distinct(s')
  {
    forall x ensures Count(s'.inbox, x) == Count(s.inbox, x) - if x == s.inbox[index].ch then 1 else 0 {
      CountDelete(s.inbox, index, x);
    }
    DeleteMultiset(s.inbox, index);
    FreshSmaller(multiset(s'.inbox) + multiset(s'.sendCases), multiset(s.inbox) + multiset(s.sendCases), s.nextId);
  }

  lemma UnsubscribeKeeps(s: State, ch: Chan)
    requires Inv(s) && ch in s.live
    ensures Inv(Step(s, Unsubscribe(ch)))
  {
    var index := Find(s.inbox, ch);
    FindCounts(s.inbox, ch);
    if index != -1 {
      UnsubscribeInbox(s, Step(s, Unsubscribe(ch)), index);
    }
  }

  /** A waiting remover always finds its case, so the list is never cut at -1. */
  lemma RemoverFinds(s: State, ch: Chan)
    requires Ledger(s) && ch in s.removers
    ensures Find(s.sendCases, ch) >= 0
  {
    FindCounts(s.sendCases, ch);
  }

  lemma DropKeeps(s: State, s': State, index: nat)
    requires Ledger(s) && Distinct(s) && index < |s.sendCases| && s.sendCases[index].ch in s.removers
    requires s'.sendCases == Delete(s.sendCases, index) && s'.inbox == s.inbox && s'.nextId == s.nextId
    requires s'.removers == s.removers - multiset{s.sendCases[index].ch} && s'.live == s.live
    ensures Ledger(s') && Distinct(s')
  {
    forall x
      ensures Count(s'.sendCases, x) == Count(s.sendCases, x) - if x == s.sendCases[index].ch then 1 else 0
    {
      CountDelete(s.sendCases, index, x);
    }
    DeleteMultiset(s.sendCases, index);
    FreshSmaller(multiset(s'.inbox) + multiset(s'.sendCases), multiset(s.inbox) + multiset(s.sendCases), s.nextId);
  }

  lemma RemoveDirectKeeps(s: State, ch: Chan)
    requires Inv(s) && Enabled(s, RemoveDirect(ch))
    ensures Inv(Step(s, RemoveDirect(ch)))
  {
    RemoverFinds(s, ch);
    DropKeeps(s, Step(s, RemoveDirect(ch)), Find(s.sendCases, ch));
  }

  lemma MergeKeeps(s: State)
    requires Inv(s) && s.sender.Locked?
    ensures Inv(Step(s, Merge))
  {
    var s' := Step(s, Merge);
    var cs := s'.sendCases;
    forall x ensures Count(cs, x) == Count(s.sendCases, x) + Count(s.inbox, x) {
      CountAppend(s.sendCases, s.inbox, x);
    }
    assert multiset(cs) == multiset(s.sendCases) + multiset(s.inbox);
    assert multiset(s'.inbox) + multiset(cs) == multiset(s.inbox) + multiset(s.sendCases) == multiset(cs);
    assert cs[|cs|..] == [];
  }

  lemma DeliverStepKeeps(s: State, k: nat, mode: Mode)
    requires Inv(s) && s.sender.Sending? && k < s.sender.m && (mode.Trying? ==> mode.i < s.sender.m)
    ensures Inv(Deliver(s, k, mode))
  {
    var s' := Deliver(s, k, mode);
    DeliverKeeps(s.sendCases, s.sender, k, mode);
    forall x ensures Count(s'.sendCases, x) == Count(s.sendCases, x) {
      CountMultiset(s'.sendCases, s.sendCases, x);
    }
  }

  lemma SelectRemoveKeeps(s: State, ch: Chan)
    requires Inv(s) && Enabled(s, SelectRemove(ch))
    ensures Inv(Step(s, SelectRemove(ch)))
  {
    RemoverFinds(s, ch);
    var index := Find(s.sendCases, ch);
    DropKeeps(s, Step(s, SelectRemove(ch)), index);
    RemovedKeeps(s.sendCases, s.sender, index);
  }

  lemma EndScanKeeps(s: State)
    requires Inv(s) && Enabled(s, EndScan)
    ensures Inv(Step(s, EndScan))
  {
    var d := s.sender;
    if d.m == 0 {
      assert s.sendCases[0..] == s.sendCases;
      assert multiset(d.start) == multiset(d.delivered) + d.goneUnsent;
    }
  }

  lemma StepKeeps(s: State, a: Action)
    requires Inv(s) && Enabled(s, a)
    ensures Inv(Step(s, a))
  {
    match a
    case Subscribe(ch) => SubscribeKeeps(s, ch);
    case Unsubscribe(ch) => UnsubscribeKeeps(s, ch);
    case RemoveDirect(ch) => RemoveDirectKeeps(s, ch);
    case Acquire =>
    case Merge => MergeKeeps(s);
    case Try(ok) =>
      if ok {
        DeliverStepKeeps(s, s.sender.mode.i, s.sender.mode);
      }
    case EndScan => EndScanKeeps(s);
    case SelectSend(k) => DeliverStepKeeps(s, k, Trying(0));
    case SelectRemove(ch) => SelectRemoveKeeps(s, ch);
  }

  // --------------------------------------------------------------------- runs

  ghost predicate IsRun(s: State, acts: seq<Action>)
    decreases |acts|
  {
    |acts| > 0 ==> Enabled(s, acts[0]) && IsRun(Step(s, acts[0]), acts[1..])
  }

  ghost function Exec(s: State, acts: seq<Action>): State
    requires IsRun(s, acts)
    decreases |acts|
  {
    if |acts| == 0 then s else Exec(Step(s, acts[0]), acts[1..])
  }

  lemma {:induction false} RunKeeps(s: State, acts: seq<Action>)
    requires Inv(s) && IsRun(s, acts)
    ensures Inv(Exec(s, acts))
    decreases |acts|
  {
    if |acts| > 0 {
      StepKeeps(s, acts[0]);
      RunKeeps(Step(s, acts[0]), acts[1..]);
    }
  }

  /**
   Under every interleaving of subscribing, unsubscribing and sending: no removal cuts
   the list at -1; the cases of each channel balance its live subscriptions and waiting
   removers; and every finished `Send` gave the value exactly once to each case it
   started with, except for those removed before their turn, which never got it.
   */
  lemma EveryInterleaving(acts: seq<Action>)
    requires IsRun(Empty, acts)
    ensures var s := Exec(Empty, acts);
            && !s.panicked
            && (forall ch :: Count(s.inbox, ch) + Count(s.sendCases, ch) == s.live[ch] + s.removers[ch])
            && (forall ch :: s.removers[ch] <= Count(s.sendCases, ch))
            && (forall r :: r in s.done ==> ReportOk(r))
            && (forall r, c :: r in s.done && c in r.start ==>
                  multiset(r.delivered)[c] == if c in r.goneUnsent then 0 else 1)
  {
    RunKeeps(Empty, acts);
    var s := Exec(Empty, acts);
    forall r, c | r in s.done && c in r.start
      ensures multiset(r.delivered)[c] == if c in r.goneUnsent then 0 else 1
    {
      assert ReportOk(r);
      assert multiset(r.start)[c] == 1;
    }
  }

  // ------------------------------------------------------------- termination

  /** Within one `Send`, every step but those of other goroutines makes this smaller. */
  function SendWork(s: State): (nat, nat) {
    match s.sender
    case Idle => (0, 0)
    case Locked => (2 * (|s.sendCases| + |s.inbox|) + 1, 0)
    case Sending(m, mode, _, _, _, _, _) =>
      (m + |s.sendCases|, match mode case Selecting => 0 case Trying(i) => if i <= m then m - i + 1 else 1)
  }

  /** The prefix and the list together shrink with every select, and scanning ends in between. */
  lemma SendProgress(s: State, a: Action)
    requires Inv(s) && s.sender.Sending? && Enabled(s, a)
    requires a.Try? || a.EndScan? || a.SelectSend? || a.SelectRemove?
    ensures var (x, y), (x', y') := SendWork(s), SendWork(Step(s, a));
            x' < x || (x' == x && y' < y) || Step(s, a).sender.Idle?
    ensures a.SelectSend? || a.SelectRemove? ==> SendWork(Step(s, a)).0 < SendWork(s).0
  {
    if a.SelectRemove? {
      RemoverFinds(s, a.ch);
    }
  }

  // ------------------------------------------------- the list worked on in place

  /** The list `sendCases`, kept in the first `n` places of a buffer that `cases` aliases. */
  class SendList {
    var buf: array<Case>
    var n: nat

    ghost predicate Valid()
      reads this
    {
      n <= buf.Length
    }

    ghost function Cases(): seq<Case>
      requires Valid()
      reads this, buf
    {
      buf[..n]
    }

    constructor ()
      ensures Valid() && fresh(buf) && Cases() == []
    {
      buf, n := new Case[0], 0;
    }

    /** `find` with its loop. */
    method FindCase(ch: Chan) returns (r: int)
      requires Valid()
      ensures r == Find(Cases(), ch)
    {
      r := 0;
      while r < n
        invariant 0 <= r <= n && forall j :: 0 <= j < r ==> buf[j].ch != ch
      {
        if buf[r].ch == ch {
          FindIs(Cases(), ch, r);
          return;
        }
        r := r + 1;
      }
      FindNone(Cases(), ch);
      r := -1;
    }

    /** `delete`: the cases behind the deleted one move down in the buffer. */
    method DeleteCase(i: nat)
      requires Valid() && i < n
      modifies this`n, buf
      ensures Valid() && buf == old(buf) && Cases() == Delete(old(Cases()), i)
    {
      var j := i;
      while j < n - 1
        invariant n == old(n) && buf == old(buf) && i <= j <= n - 1
        invariant forall k :: 0 <= k < i ==> buf[k] == old(buf[k])
        invariant forall k :: i <= k < j ==> buf[k] == old(buf[k + 1])
        invariant forall k :: j <= k < n ==> buf[k] == old(buf[k])
      {
        buf[j] := buf[j + 1];
        j := j + 1;
      }
      n := n - 1;
    }

    /** `deactivate` on the prefix of length `m`: a swap in the shared buffer. */
    method DeactivateCase(i: nat, m: nat)
      requires Valid() && i < m <= n
      modifies buf
      ensures Cases() == Deactivate(old(Cases()), i, m)
    {
      buf[i], buf[m - 1] := buf[m - 1], buf[i];
    }

    /** Taking the inbox over, which may move the list to a new buffer. */
    method AppendCases(inbox: seq<Case>)
      requires Valid()
      modifies this
      ensures Valid() && fresh(buf) && Cases() == old(Cases()) + inbox
    {
      var size := n + |inbox|;
      var cs := buf[..n] + inbox;
      buf := new Case[size](i requires 0 <= i < |cs| => cs[i]);
      n := size;
      assert buf[..n] == cs;
    }

    /**
     `Send` on the buffer, with receivers and removal requests free to act in any way:
     the prefix of length `m` always holds the unsent cases, the loop ends, and every
     case there at the start gets the value once or was removed first.
     */
    method Send(inbox: seq<Case>) returns (nsent: nat, ghost d: Sender)
      requires Valid() && Once(multiset(Cases() + inbox))
      modifies this, buf
      ensures Valid() && d.Sending? && d.start == old(Cases()) + inbox
      ensures ReportOk(Report(nsent, d.start, d.delivered, d.goneUnsent))
      ensures multiset(d.start) == multiset(Cases()) + d.goneUnsent + d.goneSent
    {
      AppendCases(inbox);
      nsent := 0;
      var m := n;
      d := Sending(n, Trying(0), 0, Cases(), [], multiset{}, multiset{});
      assert Cases()[n..] == [];
      while true
        invariant Valid() && fresh(buf) && d.Sending? && SendOk(Cases(), d) && d.m == m && d.nsent == nsent
        invariant d.start == old(Cases()) + inbox && d.mode == Trying(0)
        decreases m + n
      {
        m, nsent, d := TryAll(m, nsent, d);
        if m == 0 {
          break;
        }
        m, nsent, d := SelectOne(m, nsent, d);
      }
      assert Cases()[0..] == Cases();
      assert multiset(d.start) == multiset(d.delivered) + d.goneUnsent;
    }

    /** The blocking select of `Send`: some receiver takes the value, or some case is removed. */
    method SelectOne(m0: nat, nsent0: nat, ghost d0: Sender) returns (m: nat, nsent: nat, ghost d: Sender)
      requires Valid() && d0.Sending? && SendOk(Cases(), d0) && d0.m == m0 > 0 && d0.nsent == nsent0
      modifies this`n, buf
      ensures Valid() && buf == old(buf) && m + n < m0 + old(n)
      ensures d.Sending? && SendOk(Cases(), d) && d.m == m && d.nsent == nsent && d.mode == Trying(0)
      ensures d.start == d0.start
    {
      var remove: bool := *;
      var ch: Chan := *;
      var index := FindCase(ch);
      if remove && index != -1 {
        RemovedKeeps(Cases(), d0, index);
        m, nsent, d := if index < m0 then m0 - 1 else m0, nsent0, Removed(d0, Cases()[index], index);
        DeleteCase(index);
      } else {
        var choice: nat := *;
        var chosen := choice % m0;
        DeliverKeeps(Cases(), d0, chosen, Trying(0));
        m, nsent, d := m0 - 1, nsent0 + 1, Delivered(d0, Cases()[chosen], Trying(0));
        DeactivateCase(chosen, m0);
      }
    }

    /** The fast path of `Send`: offer the value to every case of the prefix without blocking. */
    method TryAll(m0: nat, nsent0: nat, ghost d0: Sender) returns (m: nat, nsent: nat, ghost d: Sender)
      requires Valid() && d0.Sending? && SendOk(Cases(), d0) && d0.m == m0 && d0.nsent == nsent0 && d0.mode == Trying(0)
      modifies buf
      ensures d.Sending? && SendOk(Cases(), d) && d.m == m <= m0 && d.nsent == nsent && d.mode == Trying(0)
      ensures d.start == d0.start && d.goneUnsent == d0.goneUnsent && d.goneSent == d0.goneSent
    {
      m, nsent, d := m0, nsent0, d0;
      var i := 0;
      while i < m
        invariant 0 <= i <= m <= m0
        invariant d.Sending? && SendOk(Cases(), d) && d.m == m && d.nsent == nsent && d.mode == Trying(0)
        invariant d.start == d0.start && d.goneUnsent == d0.goneUnsent && d.goneSent == d0.goneSent
        decreases m - i
      {
        var ok: bool := *;
        if ok {
          DeliverKeeps(Cases(), d, i, Trying(0));
          d := Delivered(d, Cases()[i], Trying(0));
          DeactivateCase(i, m);
          m, nsent := m - 1, nsent + 1;
        } else {
          i := i + 1;
        }
      }
    }
  }

  lemma {:induction false} FindIs(cs: seq<Case>, ch: Chan, r: nat)
    requires r < |cs| && cs[r].ch == ch && forall j :: 0 <= j < r ==> cs[j].ch != ch
    ensures Find(cs, ch) == r
  {
    if r > 0 {
      FindIs(cs[1..], ch, r - 1);
    }
  }

  lemma {:induction false} FindNone(cs: seq<Case>, ch: Chan)
    requires forall j :: 0 <= j < |cs| ==> cs[j].ch != ch
    ensures Find(cs, ch) == -1
  {
    if |cs| > 0 {
      FindNone(cs[1..], ch);
    }
  }
}
