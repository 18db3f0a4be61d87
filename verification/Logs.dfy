/**
  Log delivery: the polling filter and the push subscription read the same block notifications
  and must hand out the same logs.
 */
module Logs {
  import opened Wrappers
  import opened Layers

  type Hash = nat

  datatype RawLog = RawLog(address: nat, topics: seq<nat>, data: seq<nat>)

  datatype Block = Block(number: nat, timestamp: nat, hash: Hash, transactions: seq<Hash>)

  /** The logs of one transaction. */
  type Receipt = seq<RawLog>

  datatype Log = Log(
    inner: RawLog, blockHash: Hash, blockNumber: nat, transactionHash: Hash,
    transactionIndex: nat, logIndex: nat, blockTimestamp: nat)

  datatype Params =
    | Everything
    | Matching(blockRange: nat -> bool, blockHash: Hash -> bool, address: nat -> bool, topics: seq<nat> -> bool)

  predicate Accepts(params: Params, blockHash: Hash, blockNumber: nat, log: RawLog) {
    match params
    case Everything => true
    case Matching(range, hash, address, topics) =>
      range(blockNumber) && hash(blockHash) && address(log.address) && topics(log.topics)
  }

  /* ---------- The logs of a block ---------- */

  function Numbered(block: Block, receipt: Receipt, index: nat, first: nat): (r: seq<Log>)
    requires index < |block.transactions|
    ensures |r| == |receipt|
  {
    seq(|receipt|, k requires 0 <= k < |receipt| =>
      Log(receipt[k], block.hash, block.number, block.transactions[index], index, first + k, block.timestamp))
  }

  /** All logs of the block, numbered through. */
  function AllLogs(block: Block, receipts: seq<Receipt>): seq<Log>
    requires |receipts| <= |block.transactions|
  {
    if receipts == [] then []
    else
      var n := |receipts| - 1;
      var before := AllLogs(block, receipts[..n]);
      before + Numbered(block, receipts[n], n, |before|)
  }

  function Keep(params: Params, logs: seq<Log>): seq<Log> {
    if logs == [] then []
    else
      var n := |logs| - 1;
      Keep(params, logs[..n]) +
      (if Accepts(params, logs[n].blockHash, logs[n].blockNumber, logs[n].inner) then [logs[n]] else [])
  }

  /** Log `l` is the raw log at position `l.logIndex` of the block's receipts put end to end, with
      the block's data and those of the transaction that position falls in. */
  predicate Describes(block: Block, receipts: seq<Receipt>, l: Log)
    requires |receipts| <= |block.transactions|
  {
    var raw, k, t := Concat(receipts), l.logIndex, l.transactionIndex;
    && k < |raw| && l.inner == raw[k]
    && l.blockHash == block.hash && l.blockNumber == block.number && l.blockTimestamp == block.timestamp
    && t < |receipts| && l.transactionHash == block.transactions[t]
    && |Concat(receipts[..t])| <= k < |Concat(receipts[..t])| + |receipts[t]|
  }

  lemma DescribesMore(block: Block, receipts: seq<Receipt>, l: Log)
    requires 0 < |receipts| <= |block.transactions| && Describes(block, receipts[..|receipts| - 1], l)
    ensures Describes(block, receipts, l)
  {
    var fewer := receipts[..|receipts| - 1];
    assert fewer[..l.transactionIndex] == receipts[..l.transactionIndex];
  }

  /** A log's index is its position among all logs of its block, whatever the filter; all logs are
      the receipts put end to end. */
  lemma {:induction false} IndexIsPosition(block: Block, receipts: seq<Receipt>)
    requires |receipts| <= |block.transactions|
    ensures
      var all := AllLogs(block, receipts);
      && |all| == |Concat(receipts)|
      && forall k :: 0 <= k < |all| ==> all[k].logIndex == k && Describes(block, receipts, all[k])
  {
    if receipts != [] {
      var n := |receipts| - 1;
      var before, all := AllLogs(block, receipts[..n]), AllLogs(block, receipts);
      IndexIsPosition(block, receipts[..n]);
      forall k | 0 <= k < |all| ensures all[k].logIndex == k && Describes(block, receipts, all[k]) {
        if k < |before| { DescribesMore(block, receipts, before[k]); }
      }
    }
  }

  lemma {:induction false} KeptAreAccepted(params: Params, logs: seq<Log>, l: Log)
    ensures l in Keep(params, logs) <==> l in logs && Accepts(params, l.blockHash, l.blockNumber, l.inner)
  {
    if logs != [] {
      KeptAreAccepted(params, logs[..|logs| - 1], l);
    }
  }

  lemma {:induction false} KeptInOrder(params: Params, logs: seq<Log>)
    requires forall i, j :: 0 <= i < j < |logs| ==> logs[i].logIndex < logs[j].logIndex
    ensures
      var kept := Keep(params, logs);
      forall i, j :: 0 <= i < j < |kept| ==> kept[i].logIndex < kept[j].logIndex
  {
    if logs != [] {
      var n := |logs| - 1;
      KeptInOrder(params, logs[..n]);
      var before := Keep(params, logs[..n]);
      forall i | 0 <= i < |before| ensures before[i].logIndex < logs[n].logIndex {
        KeptAreAccepted(params, logs[..n], before[i]);
      }
    }
  }

  /** What a block delivers: the raw log at each position of its receipts once, in order, and
      carrying that position, exactly when there is no filter or all four of its conditions hold. */
  ghost predicate Delivers(block: Block, receipts: seq<Receipt>, params: Params, logs: seq<Log>)
    requires |receipts| <= |block.transactions|
  {
    var raw := Concat(receipts);
    && (forall i :: 0 <= i < |logs| ==> Describes(block, receipts, logs[i]))
    && (forall i, j :: 0 <= i < j < |logs| ==> logs[i].logIndex < logs[j].logIndex)
    && (forall k :: 0 <= k < |raw| ==>
          (HasIndex(logs, k) <==>
           (params.Matching? ==>
              && params.blockRange(block.number) && params.blockHash(block.hash)
              && params.address(raw[k].address) && params.topics(raw[k].topics))))
  }

  predicate HasIndex(logs: seq<Log>, k: nat) {
    exists i :: 0 <= i < |logs| && logs[i].logIndex == k
  }

  lemma EachMatchingLogOnce(block: Block, receipts: seq<Receipt>, params: Params)
    requires |receipts| <= |block.transactions|
    ensures Delivers(block, receipts, params, Keep(params, AllLogs(block, receipts)))
  {
    var all := AllLogs(block, receipts);
    var kept := Keep(params, all);
    IndexIsPosition(block, receipts);
    KeptInOrder(params, all);
    forall l ensures l in kept <==> l in all && Accepts(params, l.blockHash, l.blockNumber, l.inner) {
      KeptAreAccepted(params, all, l);
    }
    forall k | 0 <= k < |all|
      ensures HasIndex(kept, k) <==> Accepts(params, block.hash, block.number, Concat(receipts)[k])
    {
      assert Describes(block, receipts, all[k]);
      if i :| 0 <= i < |kept| && kept[i].logIndex == k {
        assert kept[i] in kept && kept[i] == all[k];
      } else {
        assert all[k] !in kept;
      }
    }
  }

  lemma {:induction false} KeepConcat(params: Params, a: seq<Log>, b: seq<Log>)
    ensures Keep(params, a + b) == Keep(params, a) + Keep(params, b)
  {
    if b == [] {
      assert a + b == a;
    } else {
      assert (a + b)[..|a + b| - 1] == a + b[..|b| - 1];
      KeepConcat(params, a, b[..|b| - 1]);
    }
  }

  /** The nested loops of the code, with one running counter. */
  method FilterLogs(block: Block, receipts: seq<Receipt>, params: Params) returns (logs: seq<Log>)
    requires |receipts| <= |block.transactions|
    ensures logs == Keep(params, AllLogs(block, receipts))
    ensures Delivers(block, receipts, params, logs)
  {
    logs := [];
    var logIndex := 0;
    for i := 0 to |receipts|
      invariant logIndex == |AllLogs(block, receipts[..i])|
      invariant logs == Keep(params, AllLogs(block, receipts[..i]))
    {
      assert receipts[..i + 1][..i] == receipts[..i];
      ghost var before := AllLogs(block, receipts[..i]);
      var added := FilterReceipt(block, receipts[i], i, logIndex, params);
      KeepConcat(params, before, Numbered(block, receipts[i], i, |before|));
      logs := logs + added;
      logIndex := logIndex + |receipts[i]|;
    }
    assert receipts[..|receipts|] == receipts;
    EachMatchingLogOnce(block, receipts, params);
  }

  method FilterReceipt(block: Block, receipt: Receipt, index: nat, first: nat, params: Params) returns (logs: seq<Log>)
    requires index < |block.transactions|
    ensures logs == Keep(params, Numbered(block, receipt, index, first))
  {
    logs := [];
    ghost var all := Numbered(block, receipt, index, first);
    for k := 0 to |receipt|
      invariant logs == Keep(params, all[..k])
    {
      assert all[..k + 1][..k] == all[..k];
      if Accepts(params, block.hash, block.number, receipt[k]) {
        logs := logs + [Log(receipt[k], block.hash, block.number, block.transactions[index], index, first + k, block.timestamp)];
      }
    }
    assert all[..|receipt|] == all;
  }

  /* ---------- Reading notifications ---------- */

  datatype Storage = Storage(blocks: map<Hash, Block>, receipts: map<Hash, seq<Receipt>>)

  /** Stored receipts belong to transactions of the stored block. */
  ghost predicate WellFormed(st: Storage) {
    forall h :: h in st.blocks && h in st.receipts ==> |st.receipts[h]| <= |st.blocks[h].transactions|
  }

  predicate Known(st: Storage, h: Hash) { h in st.blocks && h in st.receipts }

  ghost function BlockLogs(st: Storage, params: Params, h: Hash): seq<Log>
    requires WellFormed(st)
  {
    if Known(st, h) then Keep(params, AllLogs(st.blocks[h], st.receipts[h])) else []
  }

  /** The logs that the notifications stand for. */
  ghost function Owed(st: Storage, params: Params, hashes: seq<Hash>): seq<Log>
    requires WellFormed(st)
  {
    if hashes == [] then [] else BlockLogs(st, params, hashes[0]) + Owed(st, params, hashes[1..])
  }

  lemma Assoc<T>(a: seq<T>, b: seq<T>, c: seq<T>)
    ensures a + (b + c) == a + b + c
  {
  }

  lemma {:induction false} OwedAppend(st: Storage, params: Params, hashes: seq<Hash>, h: Hash)
    requires WellFormed(st)
    ensures Owed(st, params, hashes + [h]) == Owed(st, params, hashes) + BlockLogs(st, params, h)
  {
    if hashes == [] {
      assert (hashes + [h])[1..] == [];
    } else {
      assert (hashes + [h])[1..] == hashes[1..] + [h];
      OwedAppend(st, params, hashes[1..], h);
      Assoc(BlockLogs(st, params, hashes[0]), Owed(st, params, hashes[1..]), BlockLogs(st, params, h));
    }
  }

  /** The logs owed are those each block delivers, one block after the other; a block that
      storage does not have delivers none. */
  ghost predicate DeliveredInOrder(st: Storage, params: Params, hashes: seq<Hash>, parts: seq<seq<Log>>)
    requires WellFormed(st)
  {
    |parts| == |hashes| && forall i :: 0 <= i < |hashes| ==>
      if Known(st, hashes[i]) then Delivers(st.blocks[hashes[i]], st.receipts[hashes[i]], params, parts[i])
      else parts[i] == []
  }

  lemma {:induction false} OwedIsDelivered(st: Storage, params: Params, hashes: seq<Hash>) returns (parts: seq<seq<Log>>)
    requires WellFormed(st)
    ensures DeliveredInOrder(st, params, hashes, parts) && Owed(st, params, hashes) == Concat(parts)
  {
    if hashes == [] {
      parts := [];
    } else {
      var n := |hashes| - 1;
      var h := hashes[n];
      var before := OwedIsDelivered(st, params, hashes[..n]);
      assert hashes[..n] + [h] == hashes;
      OwedAppend(st, params, hashes[..n], h);
      parts := before + [BlockLogs(st, params, h)];
      assert parts[..n] == before;
      if Known(st, h) { EachMatchingLogOnce(st.blocks[h], st.receipts[h], params); }
    }
  }

  /** The matching logs of a notified block, if storage has it. */
  method Found(st: Storage, params: Params, h: Hash) returns (logs: Option<seq<Log>>)
    requires WellFormed(st)
    ensures logs == if Known(st, h) then Some(BlockLogs(st, params, h)) else None
  {
    if h in st.receipts && h in st.blocks {
      var found := FilterLogs(st.blocks[h], st.receipts[h], params);
      return Some(found);
    }
    return None;
  }

  /** Reading one notification moves its logs from what is owed to the output. */
  lemma OwedNext(st: Storage, params: Params, logs: seq<Log>, hashes: seq<Hash>)
    requires WellFormed(st) && hashes != []
    ensures logs + Owed(st, params, hashes) ==
      (if Known(st, hashes[0]) then logs + BlockLogs(st, params, hashes[0]) else logs) + Owed(st, params, hashes[1..])
  {
    Assoc(logs, BlockLogs(st, params, hashes[0]), Owed(st, params, hashes[1..]));
    assert logs + [] == logs;
  }

  /** The polling filter; `blocks` holds the notifications not yet read. */
  class LogsFilter {
    var blocks: seq<Hash>
    var historic: Option<seq<Log>>
    const storage: Storage
    const params: Params

    constructor (storage: Storage, params: Params, historic: Option<seq<Log>>)
      ensures blocks == [] && this.historic == historic && this.storage == storage && this.params == params
    {
      blocks, this.historic, this.storage, this.params := [], historic, storage, params;
    }

    method Poll() returns (logs: seq<Log>)
      requires WellFormed(storage)
      modifies this
      ensures historic == None && blocks == []
      ensures logs == (if old(historic).Some? then old(historic).value else []) + Owed(storage, params, old(blocks))
    {
      logs := if historic.Some? then historic.value else [];
      historic := None;
      ghost var all := logs + Owed(storage, params, blocks);
      while blocks != []
        invariant historic == None && logs + Owed(storage, params, blocks) == all
        decreases |blocks|
      {
        OwedNext(storage, params, logs, blocks);
        var h := blocks[0];
        blocks := blocks[1..];
        var found := Found(storage, params, h);
        if found.Some? { logs := logs + found.value; }
      }
      assert logs + [] == logs;
    }
  }

  /* ---------- The subscription ---------- */

  datatype Answer = Ready(log: Log) | Closed | Pending

  datatype Subscription = Subscription(queued: seq<Log>, blocks: seq<Hash>)

  /** One poll. A block with no matching log is skipped; a block that storage does not have
      ends the poll as pending, even if more notifications wait. */
  ghost function Polled(st: Storage, params: Params, closed: bool, s: Subscription): (Subscription, Answer)
    requires WellFormed(st)
    decreases |s.blocks|
  {
    if s.queued != [] then (s.(queued := s.queued[1..]), Ready(s.queued[0]))
    else if s.blocks == [] then (s, if closed then Closed else Pending)
    else
      var rest, logs := s.blocks[1..], BlockLogs(st, params, s.blocks[0]);
      if !Known(st, s.blocks[0]) then (Subscription([], rest), Pending)
      else if logs == [] then Polled(st, params, closed, Subscription([], rest))
      else (Subscription(logs[1..], rest), Ready(logs[0]))
  }

  class LogsSubscription {
    var queued: seq<Log>
    var blocks: seq<Hash>
    const storage: Storage
    const params: Params

    constructor (storage: Storage, params: Params)
      ensures queued == [] && blocks == [] && this.storage == storage && this.params == params
    {
      queued, blocks, this.storage, this.params := [], [], storage, params;
    }

    method Poll(closed: bool) returns (answer: Answer)
      requires WellFormed(storage)
      modifies this
      ensures (Subscription(queued, blocks), answer) ==
        Polled(storage, params, closed, Subscription(old(queued), old(blocks)))
    {
      while true
        invariant Polled(storage, params, closed, Subscription(queued, blocks)) ==
          Polled(storage, params, closed, Subscription(old(queued), old(blocks)))
        decreases |blocks|, |queued| == 0
      {
        if queued != [] {
          var log := queued[0];
          queued := queued[1..];
          return Ready(log);
        }
        if blocks == [] {
          return if closed then Closed else Pending;
        }
        var h := blocks[0];
        blocks := blocks[1..];
        var found := Found(storage, params, h);
        if found.Some? {
          if found.value == [] { continue; }
          queued := queued + found.value;
          assert queued == found.value;
        }
        if queued == [] {
          return Pending;
        }
      }
    }
  }

  function Emitted(a: Answer): seq<Log> {
    if a.Ready? then [a.log] else []
  }

  lemma Popped<T>(q: seq<T>, rest: seq<T>)
    requires q != []
    ensures [q[0]] + q[1..] + rest == q + rest
  {
  }

  /** A poll emits the next log owed, if any, and keeps the rest. */
  lemma {:induction false} PollKeepsOwed(st: Storage, params: Params, closed: bool, s: Subscription)
    requires WellFormed(st)
    ensures
      var (t, a) := Polled(st, params, closed, s);
      Emitted(a) + t.queued + Owed(st, params, t.blocks) == s.queued + Owed(st, params, s.blocks)
    decreases |s.blocks|
  {
    if s.queued != [] {
      Popped(s.queued, Owed(st, params, s.blocks));
    } else if s.blocks != [] {
      var rest, logs := s.blocks[1..], BlockLogs(st, params, s.blocks[0]);
      if logs != [] {
        Popped(logs, Owed(st, params, rest));
      } else if Known(st, s.blocks[0]) {
        PollKeepsOwed(st, params, closed, Subscription([], rest));
      }
    }
  }

  /** How many leading notifications a poll reads without finding a log to emit. */
  ghost function Skipped(st: Storage, params: Params, blocks: seq<Hash>): (n: nat)
    requires WellFormed(st)
    ensures n <= |blocks|
    decreases |blocks|
  {
    if blocks == [] || !Known(st, blocks[0]) || BlockLogs(st, params, blocks[0]) != [] then 0
    else 1 + Skipped(st, params, blocks[1..])
  }

  /** The outcome `r` of a poll that skips `n` of the unread blocks. */
  ghost predicate PendingRight(st: Storage, closed: bool, blocks: seq<Hash>, n: nat, r: (Subscription, Answer)) {
    && n <= |blocks|
    && (r.1.Pending? <==> if n == |blocks| then !closed else !Known(st, blocks[n]))
    && (r.1.Pending? ==> r.0.blocks == if n == |blocks| then [] else blocks[n + 1..])
  }

  lemma PendingShift(st: Storage, closed: bool, blocks: seq<Hash>, n: nat, r: (Subscription, Answer))
    requires blocks != [] && PendingRight(st, closed, blocks[1..], n, r)
    ensures PendingRight(st, closed, blocks, n + 1, r)
  {
    var rest := blocks[1..];
    assert n < |rest| ==> rest[n] == blocks[n + 1] && rest[n + 1..] == blocks[n + 2..];
  }

  lemma SkipOne(st: Storage, params: Params, closed: bool, blocks: seq<Hash>)
    requires WellFormed(st) && blocks != [] && Known(st, blocks[0]) && BlockLogs(st, params, blocks[0]) == []
    ensures Polled(st, params, closed, Subscription([], blocks)) == Polled(st, params, closed, Subscription([], blocks[1..]))
    ensures Skipped(st, params, blocks) == Skipped(st, params, blocks[1..]) + 1
  {
  }

  lemma {:induction false} PendingUnqueued(st: Storage, params: Params, closed: bool, blocks: seq<Hash>)
    requires WellFormed(st)
    ensures PendingRight(st, closed, blocks, Skipped(st, params, blocks), Polled(st, params, closed, Subscription([], blocks)))
  {
    if blocks != [] && Known(st, blocks[0]) && BlockLogs(st, params, blocks[0]) == [] {
      SkipOne(st, params, closed, blocks);
      PendingUnqueued(st, params, closed, blocks[1..]);
      PendingShift(st, closed, blocks, Skipped(st, params, blocks[1..]),
                   Polled(st, params, closed, Subscription([], blocks[1..])));
    }
  }

  /** A poll is pending exactly when nothing is queued and either all notifications were read
      in vain while the stream stays open, or the first block that is not skipped is missing
      from storage; in that second case the notifications behind it stay unread, although
      nothing is left to wake the reader up. */
  lemma PendingExactly(st: Storage, params: Params, closed: bool, s: Subscription)
    requires WellFormed(st)
    ensures
      var (t, a) := Polled(st, params, closed, s);
      var n := Skipped(st, params, s.blocks);
      && (a.Pending? <==> s.queued == [] && if n == |s.blocks| then !closed else !Known(st, s.blocks[n]))
      && (a.Pending? ==> t.blocks == if n == |s.blocks| then [] else s.blocks[n + 1..])
  {
    if s.queued == [] { PendingUnqueued(st, params, closed, s.blocks); }
  }

  /** That second case: a missing block in front leaves the logs of the blocks behind it owed. */
  lemma MissingBlockStalls(st: Storage, params: Params, closed: bool, missing: Hash, rest: seq<Hash>)
    requires WellFormed(st) && !Known(st, missing)
    ensures
      var (t, a) := Polled(st, params, closed, Subscription([], [missing] + rest));
      a == Pending && t == Subscription([], rest) && Owed(st, params, [missing] + rest) == Owed(st, params, rest)
  {
    assert ([missing] + rest)[1..] == rest;
    assert [] + Owed(st, params, rest) == Owed(st, params, rest);
  }

  /* ---------- Push and pull ---------- */

  datatype Event = Notify(hash: Hash) | PollFilter | PollSubscription

  /** Both readers, with what each has handed out so far. */
  datatype Readers = Readers(
    unread: seq<Hash>, pulled: seq<Log>, subscription: Subscription, pushed: seq<Log>)

  ghost function Step(st: Storage, params: Params, r: Readers, e: Event): Readers
    requires WellFormed(st)
  {
    match e
    case Notify(h) =>
      r.(unread := r.unread + [h], subscription := r.subscription.(blocks := r.subscription.blocks + [h]))
    case PollFilter => r.(unread := [], pulled := r.pulled + Owed(st, params, r.unread))
    case PollSubscription =>
      var (t, a) := Polled(st, params, false, r.subscription);
      r.(subscription := t, pushed := r.pushed + Emitted(a))
  }

  ghost function Run(st: Storage, params: Params, evs: seq<Event>): Readers
    requires WellFormed(st)
  {
    if evs == [] then Readers([], [], Subscription([], []), [])
    else Step(st, params, Run(st, params, evs[..|evs| - 1]), evs[|evs| - 1])
  }

  function Notified(evs: seq<Event>): seq<Hash> {
    if evs == [] then []
    else
      var n := |evs| - 1;
      Notified(evs[..n]) + (if evs[n].Notify? then [evs[n].hash] else [])
  }

  /** However notifications and polls interleave, what the filter has returned after its historic
      batch plus what it still owes, and what the subscription has emitted plus its queue plus
      what it still owes, are both the logs of all blocks notified, in order. So once both have
      read everything they have handed out the same logs. */
  lemma {:induction false} PushAndPullAgree(st: Storage, params: Params, evs: seq<Event>)
    requires WellFormed(st)
    ensures
      var r, all := Run(st, params, evs), Owed(st, params, Notified(evs));
      && r.pulled + Owed(st, params, r.unread) == all
      && r.pushed + r.subscription.queued + Owed(st, params, r.subscription.blocks) == all
      && (r.unread == [] && r.subscription.blocks == [] ==> r.pushed + r.subscription.queued == r.pulled)
  {
    if evs != [] {
      var n := |evs| - 1;
      PushAndPullAgree(st, params, evs[..n]);
      AgreeStep(st, params, Run(st, params, evs[..n]), evs[n], Notified(evs[..n]));
    }
    var r := Run(st, params, evs);
    assert Owed(st, params, []) == [];
    assert r.pulled + [] == r.pulled && r.pushed + r.subscription.queued + [] == r.pushed + r.subscription.queued;
  }

  lemma AgreeStep(st: Storage, params: Params, r: Readers, e: Event, notified: seq<Hash>)
    requires WellFormed(st)
    requires r.pulled + Owed(st, params, r.unread) == Owed(st, params, notified)
    requires r.pushed + r.subscription.queued + Owed(st, params, r.subscription.blocks) == Owed(st, params, notified)
    ensures
      var t := Step(st, params, r, e);
      var all := Owed(st, params, notified + (if e.Notify? then [e.hash] else []));
      && t.pulled + Owed(st, params, t.unread) == all
      && t.pushed + t.subscription.queued + Owed(st, params, t.subscription.blocks) == all
  {
    match e
    case Notify(h) =>
      OwedAppend(st, params, notified, h);
      AgreeNotified(st, params, r.pulled, r.unread, h);
      AgreeNotified(st, params, r.pushed + r.subscription.queued, r.subscription.blocks, h);
    case PollFilter =>
      assert notified + [] == notified;
    case PollSubscription =>
      var (t, a) := Polled(st, params, false, r.subscription);
      PollKeepsOwed(st, params, false, r.subscription);
      Moved(r.pushed, Emitted(a), t.queued, Owed(st, params, t.blocks), r.subscription.queued,
            Owed(st, params, r.subscription.blocks));
      assert notified + [] == notified;
  }

  lemma AgreeNotified(st: Storage, params: Params, out: seq<Log>, blocks: seq<Hash>, h: Hash)
    requires WellFormed(st)
    ensures out + Owed(st, params, blocks + [h]) == out + Owed(st, params, blocks) + BlockLogs(st, params, h)
  {
    OwedAppend(st, params, blocks, h);
    Assoc(out, Owed(st, params, blocks), BlockLogs(st, params, h));
  }

  /** Moving logs from what is owed to the output changes nothing overall. */
  lemma Moved(out: seq<Log>, emitted: seq<Log>, queued: seq<Log>, owed: seq<Log>, queued': seq<Log>, owed': seq<Log>)
    requires emitted + queued + owed == queued' + owed'
    ensures out + emitted + queued + owed == out + queued' + owed'
  {
    Assoc(out, emitted + queued, owed);
    Assoc(out, emitted, queued);
    Assoc(out, queued', owed');
  }
}
