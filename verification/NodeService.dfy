/**
  The node's background service: a miner hands over batches of transactions, a producer mines
  them one block at a time with a backlog, and everything moves only when polled.
 */
module NodeService {
  import opened Wrappers

  /** A batch of transaction ids; mining a batch yields one outcome, named by its batch. */
  type Batch = seq<nat>

  /** The backend is either idle or lent to the one mining task. */
  datatype Producer = Producer(idle: bool, mining: Option<Batch>, queued: seq<Batch>)

  /** `delivered` are the outcomes passed to the pool. */
  datatype Node = Node(producer: Producer, delivered: seq<Batch>)

  const NEW := Node(Producer(true, None, []), [])

  function TaskStarted(p: Producer): Producer {
    if p.queued != [] && p.idle then Producer(false, Some(p.queued[0]), p.queued[1..]) else p
  }

  /** `ready` is the mining task's answer if it is polled. */
  function Polled(p: Producer, ready: bool): (Producer, Option<Batch>) {
    var q := TaskStarted(p);
    if q.mining.Some? && ready then (Producer(true, None, q.queued), q.mining) else (q, None)
  }

  function InFlight(p: Producer): seq<Batch> {
    if p.mining.Some? then [p.mining.value] else []
  }

  /** Everything the miner has handed over, wherever it is now. */
  function Accounted(n: Node): seq<Batch> {
    n.delivered + InFlight(n.producer) + n.producer.queued
  }

  predicate Exclusive(p: Producer) {
    p.idle <==> p.mining.None?
  }

  /* ---------- Every interleaving ---------- */

  datatype Event =
    | Poll(ready: bool)
    | HandOver(batch: Batch)

  function Step(n: Node, e: Event): Node {
    match e
    case Poll(ready) =>
      var (p, outcome) := Polled(n.producer, ready);
      Node(p, if outcome.Some? then n.delivered + [outcome.value] else n.delivered)
    case HandOver(batch) => n.(producer := n.producer.(queued := n.producer.queued + [batch]))
  }

  function Run(n: Node, evs: seq<Event>): Node {
    if evs == [] then n else Step(Run(n, evs[..|evs| - 1]), evs[|evs| - 1])
  }

  function HandedOver(evs: seq<Event>): seq<Batch> {
    if evs == [] then []
    else
      var k := |evs| - 1;
      HandedOver(evs[..k]) + (if evs[k].HandOver? then [evs[k].batch] else [])
  }

  lemma StepAccounts(n: Node, e: Event)
    requires Exclusive(n.producer)
    ensures Exclusive(Step(n, e).producer)
    ensures Accounted(Step(n, e)) == Accounted(n) + (if e.HandOver? then [e.batch] else [])
  {
    if e.Poll? && n.producer.queued != [] {
      assert [n.producer.queued[0]] + n.producer.queued[1..] == n.producer.queued;
    }
  }

  lemma {:induction false} RunAccounts(n: Node, evs: seq<Event>)
    requires Exclusive(n.producer)
    ensures Exclusive(Run(n, evs).producer) && Accounted(Run(n, evs)) == Accounted(n) + HandedOver(evs)
  {
    if evs != [] {
      var k := |evs| - 1;
      RunAccounts(n, evs[..k]);
      StepAccounts(Run(n, evs[..k]), evs[k]);
    }
  }

  /** In every reachable state exactly one of idle backend and mining task is present, and the
      outcomes delivered, the batch in flight and the backlog are, in order, the batches handed
      over: none lost, none duplicated. */
  lemma NothingLost(evs: seq<Event>)
    ensures Exclusive(Run(NEW, evs).producer)
    ensures Accounted(Run(NEW, evs)) == HandedOver(evs)
  {
    RunAccounts(NEW, evs);
  }

  lemma {:induction false} RunConcat(n: Node, a: seq<Event>, b: seq<Event>)
    ensures Run(n, a + b) == Run(Run(n, a), b)
    ensures HandedOver(a + b) == HandedOver(a) + HandedOver(b)
  {
    if b == [] {
      assert a + b == a;
    } else {
      assert (a + b)[..|a + b| - 1] == a + b[..|b| - 1];
      RunConcat(n, a, b[..|b| - 1]);
    }
  }

  /** `evs` lead from `start` to `now`, handing over `batches`. */
  ghost predicate Traced(start: Node, now: Node, evs: seq<Event>, batches: seq<Batch>) {
    now == Run(start, evs) && HandedOver(evs) == batches
  }

  /** The answers the producer's polls got, in order. */
  function Answers(evs: seq<Event>): seq<bool> {
    if evs == [] then []
    else
      var k := |evs| - 1;
      Answers(evs[..k]) + (if evs[k].Poll? then [evs[k].ready] else [])
  }

  /** The polls among `evs` are numbered `first` to `next - 1`. */
  ghost predicate Answered(evs: seq<Event>, ready: nat -> bool, first: nat, next: nat) {
    && first <= next && |Answers(evs)| == next - first
    && forall k :: first <= k < next ==> Answers(evs)[k - first] == ready(k)
  }

  lemma {:induction false} AnswersConcat(a: seq<Event>, b: seq<Event>)
    ensures Answers(a + b) == Answers(a) + Answers(b)
  {
    if b == [] {
      assert a + b == a;
    } else {
      assert (a + b)[..|a + b| - 1] == a + b[..|b| - 1];
      AnswersConcat(a, b[..|b| - 1]);
    }
  }

  lemma AnsweredBoth(a: seq<Event>, b: seq<Event>, ready: nat -> bool, first: nat, mid: nat, next: nat)
    requires Answered(a, ready, first, mid) && Answered(b, ready, mid, next)
    ensures Answered(a + b, ready, first, next)
  {
    AnswersConcat(a, b);
  }

  lemma AnsweredPoll(polls: seq<Event>, ready: nat -> bool, first: nat, next: nat)
    requires Answered(polls, ready, first, next)
    ensures Answered(polls + [Poll(ready(next))], ready, first, next + 1)
  {
    assert (polls + [Poll(ready(next))])[..|polls|] == polls;
  }

  lemma AnsweredHandOver(evs: seq<Event>, batch: Batch, ready: nat -> bool, first: nat, next: nat)
    requires Answered(evs, ready, first, next)
    ensures Answered(evs + [HandOver(batch)], ready, first, next)
  {
    assert (evs + [HandOver(batch)])[..|evs|] == evs;
    assert Answers(evs) + [] == Answers(evs);
  }

  lemma TracedOne(n: Node, e: Event)
    ensures Traced(n, Step(n, e), [e], if e.HandOver? then [e.batch] else [])
  {
    assert [e][..0] == [];
    assert HandedOver([e]) == HandedOver([]) + (if e.HandOver? then [e.batch] else []);
  }

  lemma TracedBoth(start: Node, mid: Node, now: Node, a: seq<Event>, b: seq<Event>, x: seq<Batch>, y: seq<Batch>)
    requires Traced(start, mid, a, x) && Traced(mid, now, b, y)
    ensures Traced(start, now, a + b, x + y)
  {
    RunConcat(start, a, b);
  }

  lemma TracedDrained(start: Node, mid: Node, now: Node, a: seq<Event>, b: seq<Event>, x: seq<Batch>)
    requires Traced(start, mid, a, x) && Traced(mid, now, b, [])
    ensures Traced(start, now, a + b, x)
  {
    TracedBoth(start, mid, now, a, b, x, []);
    assert x + [] == x;
  }

  lemma TracedOffered(start: Node, mid: Node, now: Node, a: seq<Event>, offers: seq<Batch>, k: nat)
    requires k < |offers| && Traced(start, mid, a, offers[..k]) && Traced(mid, now, [HandOver(offers[k])], [offers[k]])
    ensures Traced(start, now, a + [HandOver(offers[k])], offers[..k + 1])
  {
    TracedBoth(start, mid, now, a, [HandOver(offers[k])], offers[..k], [offers[k]]);
    assert offers[..k] + [offers[k]] == offers[..k + 1];
  }

  lemma TracedAccounts(start: Node, now: Node, evs: seq<Event>, offers: seq<Batch>, k: nat)
    requires Exclusive(start.producer) && k == |offers| && Traced(start, now, evs, offers[..k])
    ensures Traced(start, now, evs, offers) && Accounted(now) == Accounted(start) + offers
  {
    assert offers[..k] == offers;
    RunAccounts(start, evs);
  }

  /* ---------- The service's code ---------- */

  class BlockProducer {
    var idleBackend: bool
    var blockMining: Option<Batch>
    var queued: seq<Batch>

    function View(): Producer
      reads this
    {
      Producer(idleBackend, blockMining, queued)
    }

    constructor ()
      ensures View() == NEW.producer
    {
      idleBackend, blockMining, queued := true, None, [];
    }

    method PollNext(ready: bool) returns (outcome: Option<Batch>)
      modifies this
      ensures (View(), outcome) == Polled(old(View()), ready)
    {
      if queued != [] {
        if idleBackend {
          idleBackend := false;
          var transactions := queued[0];
          queued := queued[1..];
          blockMining := Some(transactions);
        }
      }
      if blockMining.Some? {
        var mining := blockMining.value;
        blockMining := None;
        if ready {
          idleBackend := true;
          return Some(mining);
        } else {
          blockMining := Some(mining);
        }
      }
      return None;
    }
  }

  /** How many more outcomes the producer can deliver without new batches. */
  function Outstanding(p: Producer): nat {
    |p.queued| + |InFlight(p)|
  }

  class Service {
    const producer: BlockProducer
    var delivered: seq<Batch>

    function View(): Node
      reads this, producer
    {
      Node(producer.View(), delivered)
    }

    constructor ()
      ensures View() == NEW && fresh(producer)
    {
      producer := new BlockProducer();
      delivered := [];
    }

    /** Polls the producer until it is pending; `ready` answers the polls of mining tasks, one
        after the other from number `first` on. */
    method DrainProducer(ready: nat -> bool, first: nat) returns (next: nat, ghost polls: seq<Event>)
      requires Exclusive(producer.View())
      modifies this, producer
      ensures Traced(old(View()), View(), polls, []) && Exclusive(producer.View())
      ensures next > first
      // the last thing done is a poll of the producer, and it found nothing to deliver
      ensures Answered(polls, ready, first, next)
      ensures polls != [] && polls[|polls| - 1] == Poll(ready(next - 1))
      ensures var p := producer.View(); if p.mining.None? then p.queued == [] else !ready(next - 1)
    {
      next, polls := first, [];
      while true
        invariant Traced(old(View()), View(), polls, []) && Exclusive(producer.View())
        invariant Answered(polls, ready, first, next)
        decreases Outstanding(producer.View())
      {
        ghost var before, poll := View(), Poll(ready(next));
        StepAccounts(before, poll);
        TracedOne(before, poll);
        TracedBoth(old(View()), before, Step(before, poll), polls, [poll], [], []);
        AnsweredPoll(polls, ready, first, next);
        polls := polls + [poll];
        var outcome := producer.PollNext(ready(next));
        next := next + 1;
        if outcome.None? { break; }
        delivered := delivered + [outcome.value];
      }
    }

    method HandOverBatch(batch: Batch)
      requires Exclusive(producer.View())
      modifies producer
      ensures Traced(old(View()), View(), [HandOver(batch)], [batch]) && Exclusive(producer.View())
    {
      TracedOne(View(), HandOver(batch));
      producer.queued := producer.queued + [batch];
    }

    /** One poll of the service. The miner yields `offers` and is then pending; the ghost result
        lists the polls and hand-overs made, in order. */
    method PollService(offers: seq<Batch>, ready: nat -> bool) returns (polls: nat, ghost trace: seq<Event>)
      requires Exclusive(producer.View())
      modifies this, producer
      ensures Traced(old(View()), View(), trace, offers) && Exclusive(producer.View())
      ensures Accounted(View()) == Accounted(old(View())) + offers
      // no work is stranded: the last thing done is a poll of the producer, after which the
      // backlog is empty or a task is in flight, which that poll found unfinished
      ensures Answered(trace, ready, 0, polls)
      ensures polls > 0 && trace != [] && trace[|trace| - 1] == Poll(ready(polls - 1))
      ensures var p := producer.View(); if p.mining.None? then p.queued == [] else !ready(polls - 1)
    {
      ghost var start := View();
      var offered := 0;
      polls, trace := 0, [];
      while true
        invariant 0 <= offered <= |offers|
        invariant Traced(start, View(), trace, offers[..offered]) && Exclusive(producer.View())
        invariant Answered(trace, ready, 0, polls)
        decreases |offers| - offered
      {
        ghost var before := View();
        ghost var drained;
        ghost var first := polls;
        polls, drained := DrainProducer(ready, polls);
        TracedDrained(start, before, View(), trace, drained, offers[..offered]);
        AnsweredBoth(trace, drained, ready, 0, first, polls);
        trace := trace + drained;
        if offered == |offers| { break; }
        before := View();
        HandOverBatch(offers[offered]);
        TracedOffered(start, before, View(), trace, offers, offered);
        AnsweredHandOver(trace, offers[offered], ready, 0, polls);
        trace := trace + [HandOver(offers[offered])];
        offered := offered + 1;
      }
      TracedAccounts(start, View(), trace, offers, offered);
    }
  }
}
