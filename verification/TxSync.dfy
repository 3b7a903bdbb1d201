/**
 The initial transaction sync loop (ptn/sync.go): every new peer is sent all pending
 transactions in small packs, one pack at a time over all peers.

 The book records, for every sync ever started, what was to be sent, what was handed to
 the sender, pack by pack, and how the sync ended.
 */
module TxSync {

  datatype Tx = Tx(id: nat, size: nat)

  const PACK_SIZE := 100 * 1024

  /** A pending sync: the transactions still to send. */
  datatype Sync = Sync(id: nat, txs: seq<Tx>)

  datatype Fate = Open | Finished | Replaced | Dropped

  datatype Record = Record(peer: nat, all: seq<Tx>, packs: seq<seq<Tx>>, fate: Fate)

  datatype Pack = Pack(peer: nat, txs: seq<Tx>)

  /** The loop's variables and the book. `pending` is keyed by peer, the book by sync. */
  datatype State = State(pending: map<nat, Sync>, sending: bool, pack: Pack, book: map<nat, Record>)

  datatype Action = Arrive(id: nat, peer: nat, txs: seq<Tx>) | Done(ok: bool, choice: nat)

  // ------------------------------------------------------------------------- packs

  function TotalSize(txs: seq<Tx>): nat
    decreases |txs|
  {
    if |txs| == 0 then 0 else TotalSize(txs[..|txs| - 1]) + txs[|txs| - 1].size
  }

  /** Nothing is taken once the size is reached; how many transactions go into a pack that has `n` already. */
  function PackCount(txs: seq<Tx>, n: nat): (k: nat)
    requires n <= |txs|
    ensures n <= k <= |txs|
    decreases |txs| - n
  {
    if n < |txs| && TotalSize(txs[..n]) < PACK_SIZE then PackCount(txs, n + 1) else n
  }

  /** A pack is not empty, and is under the target size without its last transaction. */
  ghost predicate GoodPack(pack: seq<Tx>) {
    |pack| > 0 && TotalSize(pack[..|pack| - 1]) < PACK_SIZE
  }

  lemma {:induction false} PackIsGood(txs: seq<Tx>, n: nat)
    requires n <= |txs| && (n == 0 ==> |txs| > 0) && (n > 0 ==> TotalSize(txs[..n - 1]) < PACK_SIZE)
    ensures var k := PackCount(txs, n);
            && GoodPack(txs[..k])
            && (k < |txs| ==> TotalSize(txs[..k]) >= PACK_SIZE)
    decreases |txs| - n
  {
    var k := PackCount(txs, n);
    if n < |txs| && TotalSize(txs[..n]) < PACK_SIZE {
      PackIsGood(txs, n + 1);
    } else {
      assert txs[..n][..n - 1] == txs[..n - 1];
    }
  }

  function Concat(packs: seq<seq<Tx>>): seq<Tx>
    decreases |packs|
  {
    if |packs| == 0 then [] else Concat(packs[..|packs| - 1]) + packs[|packs| - 1]
  }

  // ------------------------------------------------------------------------ the steps

  /** `send`: fills the pack from a pending sync and starts sending it. */
  function Send(st: State, peer: nat): State
    requires peer in st.pending
  {
    var s := st.pending[peer];
    var n := PackCount(s.txs, 0);
    var rest := s.txs[n..];
    State(if rest == [] then st.pending - {peer} else st.pending[peer := Sync(s.id, rest)],
          true,
          Pack(peer, s.txs[..n]),
          Log(st.book, s.id, s.txs[..n], rest == []))
  }

  /** A pack is written into the book. */
  function Log(book: map<nat, Record>, id: nat, pack: seq<Tx>, last: bool): map<nat, Record> {
    if id in book then
      book[id := book[id].(packs := book[id].packs + [pack], fate := if last then Finished else book[id].fate)]
    else book
  }

  function Mark(book: map<nat, Record>, id: nat, fate: Fate): map<nat, Record> {
    if id in book then book[id := book[id].(fate := fate)] else book
  }

  /** A peer's pending sync is forgotten. */
  function Forget(st: State, peer: nat, fate: Fate): State {
    if peer in st.pending then
      st.(pending := st.pending - {peer}, book := Mark(st.book, st.pending[peer].id, fate))
    else st
  }

  ghost predicate Enabled(st: State, a: Action) {
    match a
    case Arrive(id, peer, txs) => id !in st.book && |txs| > 0
    case Done(ok, choice) =>
      var left := (if ok then st else Forget(st, st.pack.peer, Dropped)).pending;
      st.sending && (left != map[] ==> choice in left)
  }

  function Enter(st: State, id: nat, peer: nat, txs: seq<Tx>): State {
    var st1 := Forget(st, peer, Replaced);
    st1.(pending := st1.pending[peer := Sync(id, txs)], book := st1.book[id := Record(peer, txs, [], Open)])
  }

  function Finish(st: State, ok: bool): State {
    (if ok then st else Forget(st, st.pack.peer, Dropped)).(sending := false)
  }

  // -------------------------------------------------------------------- the invariant

  /** A pending sync has an open record, and what was sent and what is left make up the whole. */
  ghost predicate PendingOk(st: State, peer: nat) {
    peer in st.pending ==>
      var s := st.pending[peer];
      && s.id in st.book && st.book[s.id].peer == peer && st.book[s.id].fate == Open
      && |s.txs| > 0 && Concat(st.book[s.id].packs) + s.txs == st.book[s.id].all
  }

  /** A record: an open one is pending, a finished one is complete, any other was cut short. */
  ghost predicate RecordOk(st: State, id: nat) {
    id in st.book ==>
      var r := st.book[id];
      && (forall k :: 0 <= k < |r.packs| ==> GoodPack(r.packs[k]))
      && (forall k :: 0 <= k < |r.packs| && (k < |r.packs| - 1 || r.fate != Finished) ==> TotalSize(r.packs[k]) >= PACK_SIZE)
      && Concat(r.packs) <= r.all
      && (r.fate == Open ==> r.peer in st.pending && st.pending[r.peer].id == id)
      && (r.fate == Finished ==> Concat(r.packs) == r.all)
  }

  ghost predicate Records(st: State) {
    (forall peer :: PendingOk(st, peer)) && (forall id :: RecordOk(st, id))
  }

  ghost predicate Inv(st: State) {
    && Records(st)
    && (st.pending != map[] ==> st.sending)
  }

  ghost function Step(st: State, a: Action): State
    requires Enabled(st, a)
  {
    match a
    case Arrive(id, peer, txs) =>
      var st1 := Enter(st, id, peer, txs);
      if st.sending then st1 else Send(st1, peer)
    case Done(ok, choice) =>
      var st1 := Finish(st, ok);
      if st1.pending == map[] then st1 else Send(st1, choice)
  }

  // ----------------------------------------------------------------- every step keeps it

  /** The record of the sync whose pack is sent. */
  lemma SendOwnRecord(st: State, peer: nat)
    requires peer in st.pending && PendingOk(st, peer) && RecordOk(st, st.pending[peer].id)
    ensures RecordOk(Send(st, peer), st.pending[peer].id) && PendingOk(Send(st, peer), peer)
  {
    var s := st.pending[peer];
    PackIsGood(s.txs, 0);
    Extend(st.book[s.id].packs, s.txs, PackCount(s.txs, 0), st.book[s.id].all);
  }

  lemma SendOtherRecord(st: State, peer: nat, id: nat)
    requires peer in st.pending && PendingOk(st, peer) && RecordOk(st, id) && id != st.pending[peer].id
    ensures RecordOk(Send(st, peer), id)
  {
  }

  lemma SendOtherPending(st: State, peer: nat, p: nat)
    requires peer in st.pending && PendingOk(st, peer) && PendingOk(st, p) && p != peer
    ensures PendingOk(Send(st, peer), p)
  {
  }

  lemma SendKeeps(st: State, peer: nat)
    requires Records(st) && peer in st.pending
    ensures Inv(Send(st, peer))
  {
    var next := Send(st, peer);
    var own := st.pending[peer].id;
    assert PendingOk(st, peer) && RecordOk(st, own);
    SendOwnRecord(st, peer);
    forall p
      ensures PendingOk(next, p)
    {
      assert PendingOk(st, p);
      if p != peer {
        SendOtherPending(st, peer, p);
      }
    }
    forall id
      ensures RecordOk(next, id)
    {
      assert RecordOk(st, id);
      if id != own {
        SendOtherRecord(st, peer, id);
      }
    }
  }

  lemma Extend(packs: seq<seq<Tx>>, txs: seq<Tx>, n: nat, all: seq<Tx>)
    requires n <= |txs| && Concat(packs) + txs == all
    ensures Concat(packs + [txs[..n]]) + txs[n..] == all
    ensures Concat(packs + [txs[..n]]) <= all
    ensures txs[n..] == [] ==> Concat(packs + [txs[..n]]) == all
  {
    assert (packs + [txs[..n]])[..|packs|] == packs;
    assert txs == txs[..n] + txs[n..];
    assert (Concat(packs) + txs[..n]) + txs[n..] == Concat(packs) + txs;
  }

  lemma ForgetKeeps(st: State, peer: nat, fate: Fate)
    requires Records(st) && (fate == Replaced || fate == Dropped)
    ensures Records(Forget(st, peer, fate)) && peer !in Forget(st, peer, fate).pending
  {
    var next := Forget(st, peer, fate);
    assert PendingOk(st, peer);
    forall p
      ensures PendingOk(next, p)
    {
      assert PendingOk(st, p);
    }
    forall id
      ensures RecordOk(next, id)
    {
      assert RecordOk(st, id);
    }
  }

  lemma FinishKeeps(st: State, ok: bool)
    requires Records(st)
    ensures Records(Finish(st, ok))
  {
    if !ok {
      ForgetKeeps(st, st.pack.peer, Dropped);
    }
    var st1 := if ok then st else Forget(st, st.pack.peer, Dropped);
    SameRecords(st1, Finish(st, ok));
  }

  lemma SameRecords(st: State, st': State)
    requires Records(st) && st'.pending == st.pending && st'.book == st.book
    ensures Records(st')
  {
    forall p
      ensures PendingOk(st', p)
    {
      assert PendingOk(st, p);
    }
    forall id
      ensures RecordOk(st', id)
    {
      assert RecordOk(st, id);
    }
  }

  lemma EnterKeeps(st: State, id: nat, peer: nat, txs: seq<Tx>)
    requires Records(st) && id !in st.book && |txs| > 0
    ensures Records(Enter(st, id, peer, txs)) && peer in Enter(st, id, peer, txs).pending
  {
    var st1 := Forget(st, peer, Replaced);
    var next := Enter(st, id, peer, txs);
    ForgetKeeps(st, peer, Replaced);
    assert id !in st1.book;
    assert Concat([]) + txs == txs;
    forall p
      ensures PendingOk(next, p)
    {
      assert PendingOk(st1, p);
    }
    forall i
      ensures RecordOk(next, i)
    {
      assert RecordOk(st1, i);
    }
  }

  lemma StepKeeps(st: State, a: Action)
    requires Inv(st) && Enabled(st, a)
    ensures Inv(Step(st, a))
  {
    match a
    case Arrive(id, peer, txs) =>
      EnterKeeps(st, id, peer, txs);
      if !st.sending {
        SendKeeps(Enter(st, id, peer, txs), peer);
      }
    case Done(ok, choice) =>
      FinishKeeps(st, ok);
      if Finish(st, ok).pending != map[] {
        SendKeeps(Finish(st, ok), choice);
      }
  }

  // -------------------------------------------------------------------------- runs

  const Start := State(map[], false, Pack(0, []), map[])

  ghost predicate IsRun(st: State, run: seq<Action>)
    decreases |run|
  {
    |run| == 0 || (Enabled(st, run[0]) && IsRun(Step(st, run[0]), run[1..]))
  }

  ghost function Exec(st: State, run: seq<Action>): State
    requires IsRun(st, run)
    decreases |run|
  {
    if |run| == 0 then st else Exec(Step(st, run[0]), run[1..])
  }

  /** The pack being sent stays the same through everything that arrives, until its send is done. */
  lemma {:induction false} PackStays(st: State, run: seq<Action>)
    requires IsRun(st, run) && st.sending && forall i :: 0 <= i < |run| ==> run[i].Arrive?
    ensures Exec(st, run).pack == st.pack && Exec(st, run).sending
    decreases |run|
  {
    if |run| > 0 {
      PackStays(Step(st, run[0]), run[1..]);
    }
  }

  lemma {:induction false} RunKeeps(st: State, run: seq<Action>)
    requires Inv(st) && IsRun(st, run)
    ensures Inv(Exec(st, run))
    decreases |run|
  {
    if |run| > 0 {
      StepKeeps(st, run[0]);
      RunKeeps(Step(st, run[0]), run[1..]);
    }
  }

  /**
   For every run: work pending means a send is active; the packs of a sync put together
   are a prefix of its transactions, each pack well formed, and each reaching the target
   size unless it is the last of a complete sync; and once nothing is being
   sent, every sync that was neither replaced nor dropped was sent completely.
   */
  lemma EveryRun(run: seq<Action>, id: nat)
    requires IsRun(Start, run) && id in Exec(Start, run).book
    ensures var st := Exec(Start, run);
            var r := st.book[id];
            && (st.pending != map[] ==> st.sending)
            && Concat(r.packs) <= r.all
            && (forall k :: 0 <= k < |r.packs| ==> GoodPack(r.packs[k]))
            && (forall k :: 0 <= k < |r.packs| && (k < |r.packs| - 1 || r.fate != Finished) ==> TotalSize(r.packs[k]) >= PACK_SIZE)
            && (!st.sending && r.fate != Replaced && r.fate != Dropped ==> Concat(r.packs) == r.all)
  {
    RunKeeps(Start, run);
    assert RecordOk(Exec(Start, run), id);
  }

  /** Only an arrival for the same peer replaces a sync, and only a failed send drops one. */
  lemma FateChanges(st: State, a: Action, id: nat)
    requires Inv(st) && Enabled(st, a) && id in st.book && st.book[id].fate == Open
    ensures id in Step(st, a).book
    ensures Step(st, a).book[id].fate == Replaced <==> a.Arrive? && a.peer == st.book[id].peer
    ensures Step(st, a).book[id].fate == Dropped <==> a.Done? && !a.ok && st.pack.peer == st.book[id].peer
  {
    var r := st.book[id];
    assert RecordOk(st, id) && PendingOk(st, r.peer);
    match a
    case Arrive(i, peer, txs) =>
      assert PendingOk(st, peer);
    case Done(ok, choice) =>
      assert PendingOk(st, st.pack.peer);
      FinishKeeps(st, ok);
      assert PendingOk(Finish(st, ok), choice);
  }

  // ------------------------------------------------------------------- the event loop

  class Loop {
    var pending: map<nat, Sync>
    var sending: bool
    var packPeer: nat
    var packTxs: seq<Tx>
    ghost var book: map<nat, Record>

    ghost function View(): State
      reads this
    {
      State(pending, sending, Pack(packPeer, packTxs), book)
    }

    constructor ()
      ensures View() == Start
    {
      pending, sending, packPeer, packTxs, book := map[], false, 0, [], map[];
    }

    /** Fills the pack up to the target size and takes its transactions off the sync. */
    method SendPack(peer: nat)
      requires peer in pending
      modifies this
      ensures View() == Send(old(View()), peer)
    {
      var s := pending[peer];
      var size := 0;
      packPeer := peer;
      packTxs := [];
      var i := 0;
      while i < |s.txs| && size < PACK_SIZE
        invariant 0 <= i <= |s.txs| && packTxs == s.txs[..i] && size == TotalSize(s.txs[..i])
        invariant PackCount(s.txs, i) == PackCount(s.txs, 0)
        invariant packPeer == peer && pending == old(pending) && book == old(book) && sending == old(sending)
      {
        assert s.txs[..i + 1][..i] == s.txs[..i];
        packTxs := packTxs + [s.txs[i]];
        size := size + s.txs[i].size;
        i := i + 1;
      }
      assert i == PackCount(s.txs, 0);
      var rest := s.txs[|packTxs|..];
      pending := pending[peer := Sync(s.id, rest)];
      book := Log(book, s.id, packTxs, rest == []);
      if |rest| == 0 {
        pending := pending - {peer};
      }
      sending := true;
    }

    method OnSync(id: nat, peer: nat, txs: seq<Tx>)
      requires Inv(View()) && Enabled(View(), Arrive(id, peer, txs))
      modifies this
      ensures View() == Step(old(View()), Arrive(id, peer, txs))
    {
      EnterKeeps(View(), id, peer, txs);
      book := Enter(View(), id, peer, txs).book;
      pending := pending[peer := Sync(id, txs)];
      assert pending == Enter(old(View()), id, peer, txs).pending;
      if !sending {
        SendPack(peer);
      }
    }

    /** The send is done: a failing peer's sync is dropped, and some pending sync goes on. */
    method OnDone(ok: bool) returns (choice: nat)
      requires sending
      modifies this
      ensures Enabled(old(View()), Done(ok, choice)) && View() == Step(old(View()), Done(ok, choice))
    {
      choice := 0;
      Settle(ok);
      if |pending| > 0 {
        choice := Pick();
        SendPack(choice);
      }
    }

    /** The pack is done; a failing peer's pending sync is dropped. */
    method Settle(ok: bool)
      modifies this
      ensures View() == Finish(old(View()), ok)
    {
      ghost var after := Finish(View(), ok);
      sending := false;
      if !ok {
        pending := pending - {packPeer};
        book := after.book;
      }
      assert pending == after.pending;
    }

    /** Any pending sync may be next. */
    method Pick() returns (peer: nat)
      requires pending != map[]
      ensures peer in pending
    {
      assert pending.Keys != {};
      peer :| peer in pending.Keys;
    }
  }
}
