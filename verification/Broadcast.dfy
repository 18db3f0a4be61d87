/**
  Broadcasting: while a broadcast is active, calls and creates made at its depth by the account
  that started it are turned into transactions sent from a new origin, and `tx.origin` is
  switched for their duration. A single-call broadcast ends with the first such call.
 */
module Broadcasting {
  import opened Wrappers

  type Address = nat

  datatype Broadcast = Broadcast(
    newOrigin: Address, originalCaller: Address, originalOrigin: Address, depth: nat, singleCall: bool)

  /** `to` is absent for a create. */
  datatype Transaction = Transaction(from: Address, to: Option<Address>, nonce: int)

  /** What the hooks read and write: the inspector's broadcast and queue, the environment's
      `tx.origin` and the account nonces. */
  datatype Session = Session(
    broadcast: Option<Broadcast>, origin: Address, nonces: map<Address, int>, transactions: seq<Transaction>)

  datatype Callee = CheatcodeAddress | ConsoleAddress | Contract(address: Address)

  /** Whether a call goes ahead, and as whom. */
  datatype Verdict = Proceeds(caller: Address) | Refused

  function Nonce(nonces: map<Address, int>, a: Address): int {
    if a in nonces then nonces[a] else 0
  }

  function Bump(nonces: map<Address, int>, a: Address): map<Address, int> {
    nonces[a := Nonce(nonces, a) + 1]
  }

  /* ---------- What the hooks do ---------- */

  /** Without a signer the current `tx.origin` becomes the sender. */
  function Started(s: Session, caller: Address, signer: Option<Address>, single: bool, depth: nat): Session {
    if s.broadcast.Some? then s
    else
      var sender := if signer.Some? then signer.value else s.origin;
      s.(broadcast := Some(Broadcast(sender, caller, s.origin, depth, single)))
  }

  /** The sender: the one asked for, else the one the wallets are told to use, else the only
      wallet there is. */
  function Signer(asked: Option<Address>, provided: Option<Address>, wallets: seq<Address>): (r: Option<Address>)
    ensures asked.Some? ==> r == asked
    ensures asked.None? && provided.Some? ==> r == provided
    ensures asked.None? && provided.None? ==> (r.Some? <==> |wallets| == 1) && (r.Some? ==> r.value in wallets)
  {
    if asked.Some? then asked
    else if provided.Some? then provided
    else if |wallets| == 1 then Some(wallets[0])
    else None
  }

  function Stopped(s: Session): Session {
    s.(broadcast := None)
  }

  predicate Applies(s: Session, caller: Address, depth: nat) {
    s.broadcast.Some? && depth == s.broadcast.value.depth && caller == s.broadcast.value.originalCaller
  }

  function Queued(s: Session, to: Option<Address>): Session
    requires s.broadcast.Some?
  {
    var from := s.broadcast.value.newOrigin;
    s.(transactions := s.transactions + [Transaction(from, to, Nonce(s.nonces, from))])
  }

  /** The call hook; unless calls are isolated it increments the sender's nonce itself. */
  function CallBegun(s: Session, caller: Address, callee: Callee, isStatic: bool, depth: nat,
                     isolate: bool): (Session, Verdict) {
    if callee.CheatcodeAddress? then (s, Refused)
    else if callee.ConsoleAddress? || !Applies(s, caller, depth) then (s, Proceeds(caller))
    else
      var b := s.broadcast.value;
      var t := s.(origin := b.newOrigin);
      if !isStatic then
        var q := Queued(t, Some(callee.address));
        (if isolate then q else q.(nonces := Bump(q.nonces, b.newOrigin)), Proceeds(b.newOrigin))
      else if b.singleCall then (t, Refused)
      else (t, Proceeds(b.newOrigin))
  }

  /** The create hook also switches the origin for creates deeper than the broadcast. */
  function CreateBegun(s: Session, caller: Address, depth: nat): (Session, Address) {
    if s.broadcast.Some? && depth >= s.broadcast.value.depth && caller == s.broadcast.value.originalCaller then
      var b := s.broadcast.value;
      var t := s.(origin := b.newOrigin);
      if depth == b.depth then (Queued(t, None), b.newOrigin) else (t, caller)
    else (s, caller)
  }

  /** `depth` is the depth returned to; calls to cheatcodes and the console end unnoticed. */
  function Ended(s: Session, cheatcode: bool, depth: nat): Session {
    if !cheatcode && s.broadcast.Some? && depth == s.broadcast.value.depth then
      s.(origin := s.broadcast.value.originalOrigin,
         broadcast := if s.broadcast.value.singleCall then None else s.broadcast)
    else s
  }

  /* ---------- The inspector's code ---------- */

  class Inspector {
    var broadcast: Option<Broadcast>
    var broadcastableTransactions: seq<Transaction>
    var txCaller: Address
    var nonces: map<Address, int>
    const isolate: bool

    function View(): Session
      reads this
    {
      Session(broadcast, txCaller, nonces, broadcastableTransactions)
    }

    constructor (origin: Address, nonces: map<Address, int>, isolate: bool)
      ensures View() == Session(None, origin, nonces, []) && this.isolate == isolate
    {
      broadcast := None;
      broadcastableTransactions := [];
      txCaller := origin;
      this.nonces := nonces;
      this.isolate := isolate;
    }

    method Start(caller: Address, asked: Option<Address>, provided: Option<Address>, wallets: seq<Address>,
                 single: bool, depth: nat, pranked: bool) returns (ok: bool)
      modifies this
      ensures ok <==> !pranked && old(broadcast).None?
      ensures View() ==
        if pranked then old(View())
        else Started(old(View()), caller, Signer(asked, provided, wallets), single, depth)
      ensures txCaller == old(txCaller) && nonces == old(nonces)
      ensures broadcastableTransactions == old(broadcastableTransactions) && (!ok ==> broadcast == old(broadcast))
      ensures ok ==>
        && broadcast.Some? && broadcast.value.originalCaller == caller && broadcast.value.originalOrigin == old(txCaller)
        && broadcast.value.depth == depth && broadcast.value.singleCall == single
      ensures ok && asked.Some? ==> broadcast.value.newOrigin == asked.value
      ensures ok && asked.None? && provided.Some? ==> broadcast.value.newOrigin == provided.value
      ensures ok && asked.None? && provided.None? && |wallets| == 1 ==> broadcast.value.newOrigin == wallets[0]
      ensures ok && asked.None? && provided.None? && |wallets| != 1 ==> broadcast.value.newOrigin == old(txCaller)
    {
      if pranked { return false; }
      if broadcast.Some? { return false; }
      var newOrigin := asked;
      if newOrigin.None? {
        if provided.Some? {
          newOrigin := provided;
        } else if |wallets| == 1 {
          newOrigin := Some(wallets[0]);
        }
      }
      broadcast := Some(Broadcast(if newOrigin.Some? then newOrigin.value else txCaller, caller, txCaller, depth, single));
      return true;
    }

    method Stop() returns (ok: bool)
      modifies this
      ensures ok <==> old(broadcast).Some?
      ensures View() == Stopped(old(View()))
      ensures broadcast == None && txCaller == old(txCaller) && nonces == old(nonces)
      ensures broadcastableTransactions == old(broadcastableTransactions)
    {
      ok := broadcast.Some?;
      broadcast := None;
    }

    method RecordTransaction(to: Option<Address>)
      requires broadcast.Some?
      modifies this
      ensures View() == Queued(old(View()), to)
    {
      var from := broadcast.value.newOrigin;
      var nonce := Nonce(nonces, from);
      broadcastableTransactions := broadcastableTransactions + [Transaction(from, to, nonce)];
    }

    method Call(caller: Address, callee: Callee, isStatic: bool, depth: nat) returns (verdict: Verdict)
      modifies this
      ensures (View(), verdict) == CallBegun(old(View()), caller, callee, isStatic, depth, isolate)
    {
      if callee == CheatcodeAddress { return Refused; }
      if callee == ConsoleAddress { return Proceeds(caller); }
      verdict := Proceeds(caller);
      if broadcast.Some? {
        var b := broadcast.value;
        if depth == b.depth && caller == b.originalCaller {
          txCaller := b.newOrigin;
          verdict := Proceeds(b.newOrigin);
          if !isStatic {
            RecordTransaction(Some(callee.address));
            if !isolate {
              nonces := nonces[b.newOrigin := Nonce(nonces, b.newOrigin) + 1];
            }
          } else if b.singleCall {
            return Refused;
          }
        }
      }
    }

    method Create(caller: Address, depth: nat) returns (sender: Address)
      modifies this
      ensures (View(), sender) == CreateBegun(old(View()), caller, depth)
    {
      sender := caller;
      if broadcast.Some? {
        var b := broadcast.value;
        if depth >= b.depth && caller == b.originalCaller {
          txCaller := b.newOrigin;
          if depth == b.depth {
            sender := b.newOrigin;
            RecordTransaction(None);
          }
        }
      }
    }

    method End(cheatcode: bool, depth: nat)
      modifies this
      ensures View() == Ended(old(View()), cheatcode, depth)
      ensures nonces == old(nonces) && broadcastableTransactions == old(broadcastableTransactions)
      ensures
        if cheatcode || old(broadcast).None? || depth != old(broadcast).value.depth then
          broadcast == old(broadcast) && txCaller == old(txCaller)
        else
          && txCaller == old(broadcast).value.originalOrigin
          && broadcast == if old(broadcast).value.singleCall then None else old(broadcast)
    {
      if !cheatcode && broadcast.Some? {
        var b := broadcast.value;
        if depth == b.depth {
          txCaller := b.originalOrigin;
          if b.singleCall {
            broadcast := None;
          }
        }
      }
    }
  }

  /* ---------- Runs over the call tree ---------- */

  datatype Event =
    | Call(caller: Address, callee: Callee, isStatic: bool)
    | Create(caller: Address)
    | End(reverted: bool)
    | Start(caller: Address, signer: Option<Address>, single: bool)
    | Stop

  /** Who a frame was entered as, and the creates made in it, whose nonce increments its revert
      undoes. Increments made by the hooks are not journaled and stay. */
  datatype Frame = Frame(sender: Address, creates: seq<Address>)

  function WithCreates(f: Frame, more: seq<Address>): Frame { f.(creates := f.creates + more) }

  datatype World = World(session: Session, frames: seq<Frame>)

  function CountOf(s: seq<Address>, a: Address): nat {
    if s == [] then 0 else CountOf(s[..|s| - 1], a) + (if s[|s| - 1] == a then 1 else 0)
  }

  function Undo(nonces: map<Address, int>, creates: seq<Address>): map<Address, int>
    decreases |creates|
  {
    if creates == [] then nonces
    else
      var a := creates[|creates| - 1];
      Undo(nonces[a := Nonce(nonces, a) - 1], creates[..|creates| - 1])
  }

  /** CREATE increments its sender's nonce in the frame that executes it. */
  function Step(w: World, e: Event): World
    requires w.frames != []
  {
    var s, depth := w.session, |w.frames|;
    match e
    case Call(caller, callee, isStatic) =>
      if !callee.Contract? then w
      else
        var (t, verdict) := CallBegun(s, caller, callee, isStatic, depth, false);
        if verdict.Refused? then World(Ended(t, false, depth), w.frames)
        else World(t, w.frames + [Frame(verdict.caller, [])])
    case Create(caller) =>
      var (t, sender) := CreateBegun(s, caller, depth);
      World(t.(nonces := Bump(t.nonces, sender)),
            w.frames[depth - 1 := WithCreates(w.frames[depth - 1], [sender])] + [Frame(sender, [])])
    case End(reverted) =>
      var top, rest := w.frames[depth - 1], w.frames[..depth - 1];
      var t := if reverted then s.(nonces := Undo(s.nonces, top.creates)) else s;
      var frames := if reverted || rest == [] then rest else rest[depth - 2 := WithCreates(rest[depth - 2], top.creates)];
      World(Ended(t, false, depth - 1), frames)
    case Start(caller, signer, single) => w.(session := Started(s, caller, signer, single, depth))
    case Stop => w.(session := Stopped(s))
  }

  /** The states a run goes through; it stops once the root frame has ended. */
  function Run(w: World, evs: seq<Event>): World {
    if evs == [] then w
    else
      var v := Run(w, evs[..|evs| - 1]);
      if v.frames == [] then v else Step(v, evs[|evs| - 1])
  }

  function At(w: World, evs: seq<Event>, i: nat): World
    requires i <= |evs|
  {
    Run(w, evs[..i])
  }

  lemma AtPrefix(w: World, evs: seq<Event>, n: nat, i: nat)
    requires i <= n <= |evs|
    ensures At(w, evs[..n], i) == At(w, evs, i)
  {
    assert evs[..n][..i] == evs[..i];
  }

  /* ---------- As whom ---------- */

  /** What the call hook does, case by case: calls to cheatcodes stop there, a call the broadcast
      does not apply to goes ahead untouched, and one it applies to goes ahead as the sender with
      `tx.origin` set alike, as the transaction queued for it says, except that a static call
      queues nothing and is refused under a single-call broadcast. */
  lemma CallEffect(s: Session, caller: Address, callee: Callee, isStatic: bool, depth: nat, isolate: bool, a: Address)
    ensures
      var (t, verdict) := CallBegun(s, caller, callee, isStatic, depth, isolate);
      if callee.CheatcodeAddress? then t == s && verdict == Refused
      else if callee.ConsoleAddress? || s.broadcast.None? || depth != s.broadcast.value.depth
              || caller != s.broadcast.value.originalCaller then
        t == s && verdict == Proceeds(caller)
      else
        var b := s.broadcast.value;
        && t.broadcast == s.broadcast && t.origin == b.newOrigin
        && (verdict == if isStatic && b.singleCall then Refused else Proceeds(b.newOrigin))
        && t.transactions == s.transactions +
           (if isStatic then [] else [Transaction(b.newOrigin, Some(callee.address), Nonce(s.nonces, b.newOrigin))])
        && Nonce(t.nonces, a) == Nonce(s.nonces, a) + (if !isStatic && !isolate && a == b.newOrigin then 1 else 0)
  {
    assert s.transactions + [] == s.transactions;
  }

  /** What the create hook does: only at the broadcast's depth is a create queued and made as the
      sender; deeper, `tx.origin` is switched all the same. */
  lemma CreateEffect(s: Session, caller: Address, depth: nat)
    ensures
      var (t, sender) := CreateBegun(s, caller, depth);
      if s.broadcast.None? || caller != s.broadcast.value.originalCaller || depth < s.broadcast.value.depth then
        t == s && sender == caller
      else
        var b := s.broadcast.value;
        && t.broadcast == s.broadcast && t.nonces == s.nonces && t.origin == b.newOrigin
        && sender == (if depth == b.depth then b.newOrigin else caller)
        && t.transactions == s.transactions +
           (if depth == b.depth then [Transaction(b.newOrigin, None, Nonce(s.nonces, b.newOrigin))] else [])
  {
    assert s.transactions + [] == s.transactions;
  }

  /** An event queues at most one transaction, and then enters a frame as its sender, with
      `tx.origin` the sender too. */
  lemma QueuedAsSender(w: World, e: Event)
    requires w.frames != []
    ensures
      var t, before := Step(w, e), w.session.transactions;
      || t.session.transactions == before
      || (&& |t.session.transactions| == |before| + 1 && t.session.transactions[..|before|] == before
          && |t.frames| == |w.frames| + 1
          && t.session.transactions[|before|].from == t.frames[|w.frames|].sender == t.session.origin)
  {
  }

  /** Who the frames were entered as for which transactions were queued, in order. */
  function Senders(w: World, evs: seq<Event>): seq<Address> {
    if evs == [] then []
    else
      var n := |evs| - 1;
      var before, after := Run(w, evs[..n]), Run(w, evs);
      Senders(w, evs[..n]) +
      (if |after.session.transactions| > |before.session.transactions| && after.frames != []
       then [after.frames[|after.frames| - 1].sender] else [])
  }

  /** On every run from an empty queue, the transactions are, in order, from the senders of the
      frames entered for them. */
  lemma {:induction false} TransactionsFromSenders(w: World, evs: seq<Event>)
    requires w.session.transactions == []
    ensures
      var txs := Run(w, evs).session.transactions;
      |txs| == |Senders(w, evs)| && forall k :: 0 <= k < |txs| ==> txs[k].from == Senders(w, evs)[k]
  {
    if evs != [] {
      var n := |evs| - 1;
      TransactionsFromSenders(w, evs[..n]);
      var v := Run(w, evs[..n]);
      if v.frames != [] {
        QueuedAsSender(v, evs[n]);
        var before := v.session.transactions;
        var txs := Run(w, evs).session.transactions;
        assert |txs| > |before| ==> forall k :: 0 <= k < |before| ==> txs[k] == txs[..|before|][k];
      }
    }
  }

  /* ---------- Restoring the origin ---------- */

  /** The run starts no further broadcast: a start while one is active is refused. */
  predicate NoNewBroadcast(w: World, evs: seq<Event>) {
    forall i :: 0 <= i < |evs| ==> IgnoredStart(w, evs, i)
  }

  predicate IgnoredStart(w: World, evs: seq<Event>, i: nat)
    requires i < |evs|
  {
    evs[i].Start? ==> At(w, evs, i).session.broadcast.Some?
  }

  /** Event `i` stops an active broadcast. */
  predicate Stops(w: World, evs: seq<Event>, i: nat)
    requires i < |evs|
  {
    evs[i].Stop? && At(w, evs, i).frames != [] && At(w, evs, i).session.broadcast.Some?
  }

  /** Event `e` is a call the broadcast applies to, or a create by its caller at or above its
      depth, that goes ahead: `tx.origin` is switched for it. */
  predicate Switches(v: World, e: Event, b: Broadcast) {
    && v.frames != [] && v.session.broadcast == Some(b)
    && (match e
        case Call(caller, callee, isStatic) =>
          callee.Contract? && Applies(v.session, caller, |v.frames|) && !(isStatic && b.singleCall)
        case Create(caller) => |v.frames| >= b.depth && caller == b.originalCaller
        case _ => false)
  }

  /** Event `j` is such a call or create, and the run has not been back at the broadcast's depth
      since. */
  predicate OpenedBy(w: World, evs: seq<Event>, j: nat, b: Broadcast)
    requires j < |evs|
  {
    Switches(At(w, evs, j), evs[j], b) && StaysAbove(w, evs, j, b.depth)
  }

  predicate StaysAbove(w: World, evs: seq<Event>, j: nat, depth: nat) {
    forall k :: j < k <= |evs| ==> |At(w, evs, k).frames| > depth
  }

  lemma StaysAbovePrefix(w: World, evs: seq<Event>, j: nat, depth: nat)
    requires j < |evs|
    ensures StaysAbove(w, evs, j, depth) <==> StaysAbove(w, evs[..|evs| - 1], j, depth) && |Run(w, evs).frames| > depth
  {
    var n := |evs| - 1;
    assert evs[..|evs|] == evs;
    assert At(w, evs, |evs|) == Run(w, evs);
    if StaysAbove(w, evs, j, depth) {
      forall k | j < k <= n ensures |At(w, evs[..n], k).frames| > depth { AtPrefix(w, evs, n, k); }
    }
    if StaysAbove(w, evs[..n], j, depth) {
      forall k | j < k <= n ensures |At(w, evs, k).frames| > depth { AtPrefix(w, evs, n, k); }
    }
  }

  /** The run is inside a call or create of the broadcast. */
  ghost predicate Inside(w: World, evs: seq<Event>, b: Broadcast) {
    exists j :: 0 <= j < |evs| && OpenedBy(w, evs, j, b)
  }

  lemma OpenedByPrefix(w: World, evs: seq<Event>, j: nat, b: Broadcast)
    requires j < |evs| - 1
    ensures
      var n := |evs| - 1;
      OpenedBy(w, evs, j, b) <==> OpenedBy(w, evs[..n], j, b) && |Run(w, evs).frames| > b.depth
  {
    var n := |evs| - 1;
    var v, e := At(w, evs, j), evs[j];
    assert At(w, evs[..n], j) == v && evs[..n][j] == e by { AtPrefix(w, evs, n, j); }
    assert OpenedBy(w, evs, j, b) <==> Switches(v, e, b) && StaysAbove(w, evs, j, b.depth);
    StaysAbovePrefix(w, evs, j, b.depth);
  }

  lemma OpenedByLast(w: World, evs: seq<Event>, b: Broadcast)
    requires evs != []
    ensures
      var n := |evs| - 1;
      OpenedBy(w, evs, n, b) <==> Switches(Run(w, evs[..n]), evs[n], b) && |Run(w, evs).frames| > b.depth
  {
    StaysAbovePrefix(w, evs, |evs| - 1, b.depth);
  }

  lemma InsideIff(w: World, evs: seq<Event>, b: Broadcast, deep: bool, switches: bool)
    requires evs != []
    requires forall j :: 0 <= j < |evs| - 1 ==> (OpenedBy(w, evs, j, b) <==> OpenedBy(w, evs[..|evs| - 1], j, b) && deep)
    requires OpenedBy(w, evs, |evs| - 1, b) <==> switches && deep
    ensures Inside(w, evs, b) <==> deep && (Inside(w, evs[..|evs| - 1], b) || switches)
  {
    var n := |evs| - 1;
    if j :| 0 <= j < |evs| && OpenedBy(w, evs, j, b) { assert j < n ==> OpenedBy(w, evs[..n], j, b); }
    if j :| 0 <= j < n && OpenedBy(w, evs[..n], j, b) { assert deep ==> OpenedBy(w, evs, j, b); }
  }

  lemma InsideStep(w: World, evs: seq<Event>, b: Broadcast)
    requires evs != []
    ensures
      var n := |evs| - 1;
      Inside(w, evs, b) <==>
        |Run(w, evs).frames| > b.depth && (Inside(w, evs[..n], b) || Switches(Run(w, evs[..n]), evs[n], b))
  {
    var n := |evs| - 1;
    OpenedByLast(w, evs, b);
    forall j | 0 <= j < n
      ensures OpenedBy(w, evs, j, b) <==> OpenedBy(w, evs[..n], j, b) && |Run(w, evs).frames| > b.depth
    {
      OpenedByPrefix(w, evs, j, b);
    }
    InsideIff(w, evs, b, |Run(w, evs).frames| > b.depth, Switches(Run(w, evs[..n]), evs[n], b));
  }

  /** Event `i` stops an active broadcast inside one of its calls, whose sender differs from the
      origin it replaced. */
  ghost predicate StopsInside(w: World, evs: seq<Event>, i: nat, b: Broadcast)
    requires i < |evs|
  {
    Stops(w, evs, i) && b.newOrigin != b.originalOrigin && Inside(w, evs[..i], b)
  }

  ghost predicate Interrupted(w: World, evs: seq<Event>, b: Broadcast) {
    exists i :: 0 <= i < |evs| && StopsInside(w, evs, i, b)
  }

  lemma PrefixEvent(w: World, evs: seq<Event>, i: nat, b: Broadcast)
    requires i < |evs| - 1
    ensures
      var n := |evs| - 1;
      && IgnoredStart(w, evs[..n], i) == IgnoredStart(w, evs, i)
      && Stops(w, evs[..n], i) == Stops(w, evs, i)
      && StopsInside(w, evs[..n], i, b) == StopsInside(w, evs, i, b)
  {
    AtPrefix(w, evs, |evs| - 1, i);
    assert evs[..|evs| - 1][..i] == evs[..i];
  }

  lemma NoNewBroadcastPrefix(w: World, evs: seq<Event>)
    requires evs != [] && NoNewBroadcast(w, evs)
    ensures NoNewBroadcast(w, evs[..|evs| - 1])
  {
    var n := |evs| - 1;
    forall i | 0 <= i < n ensures IgnoredStart(w, evs[..n], i) {
      AtPrefix(w, evs, n, i);
      assert IgnoredStart(w, evs, i);
    }
  }

  lemma InterruptedStep(w: World, evs: seq<Event>, b: Broadcast)
    requires evs != []
    ensures
      var n := |evs| - 1;
      Interrupted(w, evs, b) <==> Interrupted(w, evs[..n], b) || StopsInside(w, evs, n, b)
  {
    var n := |evs| - 1;
    if i :| 0 <= i < n && StopsInside(w, evs[..n], i, b) {
      PrefixEvent(w, evs, i, b);
      assert StopsInside(w, evs, i, b);
    }
    if i :| 0 <= i < |evs| && StopsInside(w, evs, i, b) && i < n {
      PrefixEvent(w, evs, i, b);
      assert StopsInside(w, evs[..n], i, b);
    }
  }

  /** While `b` is active the origin is the sender's inside its calls and the saved one outside;
      once it is gone the origin is the saved one unless it was stopped inside. */
  predicate OriginRight(s: Session, depth: nat, b: Broadcast, inside: bool, interrupted: bool) {
    if s.broadcast.Some? then
      && s.broadcast == Some(b) && !interrupted && (inside ==> depth > b.depth)
      && s.origin == if inside then b.newOrigin else b.originalOrigin
    else s.origin == b.originalOrigin <==> !interrupted
  }

  lemma OriginStep(v: World, e: Event, b: Broadcast, inside: bool, interrupted: bool)
    requires v.frames != [] && b.depth > 0 && OriginRight(v.session, |v.frames|, b, inside, interrupted)
    requires e.Start? ==> v.session.broadcast.Some?
    ensures
      var t := Step(v, e);
      var stuck := e.Stop? && v.session.broadcast.Some? && b.newOrigin != b.originalOrigin && inside;
      OriginRight(t.session, |t.frames|, b, |t.frames| > b.depth && (inside || Switches(v, e, b)), interrupted || stuck)
  {
  }

  lemma {:induction false} OriginHolds(w: World, evs: seq<Event>, b: Broadcast)
    requires w.session.broadcast == Some(b) && b.depth == |w.frames| > 0 && w.session.origin == b.originalOrigin
    requires NoNewBroadcast(w, evs)
    ensures
      var r := Run(w, evs);
      OriginRight(r.session, |r.frames|, b, Inside(w, evs, b), Interrupted(w, evs, b))
  {
    if evs != [] {
      var n := |evs| - 1;
      NoNewBroadcastPrefix(w, evs);
      OriginHolds(w, evs[..n], b);
      InterruptedStep(w, evs, b);
      InsideStep(w, evs, b);
      var v := Run(w, evs[..n]);
      assert At(w, evs, n) == v && IgnoredStart(w, evs, n);
      if v.frames != [] { OriginStep(v, evs[n], b, Inside(w, evs[..n], b), Interrupted(w, evs[..n], b)); }
    }
  }

  /** After any run under a broadcast, single-call or not, that is back at its depth or below,
      `tx.origin` is the saved one if and only if the broadcast was not stopped inside a call it
      applies to. */
  lemma OriginRestored(w: World, evs: seq<Event>, b: Broadcast)
    requires w.session.broadcast == Some(b) && b.depth == |w.frames| > 0 && w.session.origin == b.originalOrigin
    requires NoNewBroadcast(w, evs) && |Run(w, evs).frames| <= b.depth
    ensures Run(w, evs).session.origin == b.originalOrigin <==> !Interrupted(w, evs, b)
  {
    OriginHolds(w, evs, b);
  }

  /** Such a run: the broadcast is stopped inside the call it was made for, and when the call has
      ended `tx.origin` is still the sender's. */
  lemma OriginStuck(w: World, caller: Address, a: Address, to: Address)
    requires w.session.broadcast == None && w.frames != [] && w.session.origin != a
    ensures
      var r := Run(w, [Start(caller, Some(a), false), Call(caller, Contract(to), false), Stop, End(false)]);
      |r.frames| == |w.frames| && r.session.broadcast == None && r.session.origin == a != w.session.origin
  {
    var e1, e2, e3 := Start(caller, Some(a), false), Call(caller, Contract(to), false), Stop;
    var evs := [e1, e2, e3, End(false)];
    assert evs[..3] == [e1, e2, e3];
    RunThree(w, e1, e2, e3);
    var w2 := Step(Step(w, e1), e2);
    assert w2.frames == w.frames + [Frame(a, [])];
    var w3 := Step(w2, e3);
    assert w3.frames[..|w.frames|] == w.frames;
  }

  /** And nothing later repairs it: without a broadcast neither `tx.origin` nor the queue changes. */
  lemma {:induction false} OriginStuckWithoutBroadcast(w: World, evs: seq<Event>)
    requires w.session.broadcast == None && forall i :: 0 <= i < |evs| ==> !evs[i].Start?
    ensures
      var s := Run(w, evs).session;
      s.broadcast == None && s.origin == w.session.origin && s.transactions == w.session.transactions
  {
    if evs != [] { OriginStuckWithoutBroadcast(w, evs[..|evs| - 1]); }
  }

  /* ---------- One-shot broadcasts ---------- */

  /** Event `i` ends a call or create that was made at depth `depth`: it returns to that depth,
      or it is a call refused on the spot. */
  predicate EndsAt(w: World, evs: seq<Event>, i: nat, depth: nat)
    requires i < |evs|
  {
    var before, after := At(w, evs, i).frames, At(w, evs, i + 1).frames;
    && before != [] && |after| == depth
    && (evs[i].End? || (evs[i].Call? && evs[i].callee.Contract? && |before| == |after|))
  }

  /** The events that end a single-call broadcast at depth `depth`. */
  predicate Finishes(w: World, evs: seq<Event>, i: nat, depth: nat)
    requires i < |evs|
  {
    EndsAt(w, evs, i, depth) || Stops(w, evs, i)
  }

  ghost predicate Over(w: World, evs: seq<Event>, depth: nat) {
    exists i :: 0 <= i < |evs| && Finishes(w, evs, i, depth)
  }

  predicate AtMostOne(s: Session, s0: Session, b: Broadcast) {
    || s.transactions == s0.transactions
    || (|s.transactions| == |s0.transactions| + 1 && s0.transactions <= s.transactions
        && s.transactions[|s0.transactions|].from == b.newOrigin)
  }

  /** Active, with nothing recorded yet at or below the broadcast's depth, or gone. */
  predicate Tracks(s: Session, depth: nat, s0: Session, b: Broadcast, over: bool) {
    && s.broadcast == (if over then None else Some(b))
    && (!over && depth <= b.depth ==> s.transactions == s0.transactions)
    && AtMostOne(s, s0, b)
  }

  lemma OverStep(w: World, evs: seq<Event>, depth: nat)
    requires evs != []
    ensures Over(w, evs, depth) <==> Over(w, evs[..|evs| - 1], depth) || Finishes(w, evs, |evs| - 1, depth)
  {
    var n := |evs| - 1;
    forall i | 0 <= i < n ensures Finishes(w, evs[..n], i, depth) == Finishes(w, evs, i, depth) {
      AtPrefix(w, evs, n, i);
      AtPrefix(w, evs, n, i + 1);
    }
    if i :| 0 <= i < n && Finishes(w, evs[..n], i, depth) {
      assert Finishes(w, evs, i, depth);
    }
  }

  /** Over every run that starts no further broadcast, a single-call broadcast records at most
      one transaction, sent from its new origin; it is cleared exactly from the moment the first
      call or create at its depth has ended or it is stopped; and back at its depth `tx.origin`
      is the saved one if and only if it was not stopped inside the call. */
  lemma OneShot(w: World, evs: seq<Event>, b: Broadcast)
    requires w.session.broadcast == Some(b) && b.singleCall && b.depth == |w.frames| > 0
    requires w.session.origin == b.originalOrigin && NoNewBroadcast(w, evs)
    ensures
      var r := Run(w, evs);
      && Tracks(r.session, |r.frames|, w.session, b, Over(w, evs, b.depth))
      && (|r.frames| <= b.depth ==> (r.session.origin == b.originalOrigin <==> !Interrupted(w, evs, b)))
  {
    OneShotTracks(w, evs, b);
    OriginHolds(w, evs, b);
  }

  lemma {:induction false} OneShotTracks(w: World, evs: seq<Event>, b: Broadcast)
    requires w.session.broadcast == Some(b) && b.singleCall && b.depth == |w.frames| > 0
    requires NoNewBroadcast(w, evs)
    ensures var r := Run(w, evs); Tracks(r.session, |r.frames|, w.session, b, Over(w, evs, b.depth))
  {
    if evs != [] {
      var n := |evs| - 1;
      NoNewBroadcastPrefix(w, evs);
      OneShotTracks(w, evs[..n], b);
      OverStep(w, evs, b.depth);
      var v := Run(w, evs[..n]);
      assert evs[..n + 1] == evs;
      assert At(w, evs, n) == v && At(w, evs, n + 1) == Run(w, evs) && IgnoredStart(w, evs, n);
      if v.frames != [] { OneShotStep(v, evs[n], w.session, b, Over(w, evs[..n], b.depth)); }
    }
  }

  lemma OneShotStep(v: World, e: Event, s0: Session, b: Broadcast, over: bool)
    requires v.frames != [] && b.singleCall && b.depth > 0 && (e.Start? ==> v.session.broadcast.Some?)
    requires Tracks(v.session, |v.frames|, s0, b, over)
    ensures
      var t := Step(v, e);
      var finishes := || (|t.frames| == b.depth && (e.End? || (e.Call? && e.callee.Contract? && |v.frames| == b.depth)))
                      || (e.Stop? && v.session.broadcast.Some?);
      Tracks(t.session, |t.frames|, s0, b, over || finishes)
  {
  }

  /* ---------- Nonces ---------- */

  function NoncesOf(txs: seq<Transaction>, a: Address): seq<int> {
    if txs == [] then []
    else
      var n := |txs| - 1;
      NoncesOf(txs[..n], a) + (if txs[n].from == a then [txs[n].nonce] else [])
  }

  /** Consecutive nonces from `first`, with no gap and no repeat. */
  predicate Consecutive(nonces: seq<int>, first: int) {
    forall j :: 0 <= j < |nonces| ==> nonces[j] == first + j
  }

  lemma {:induction false} UndoNonce(nonces: map<Address, int>, creates: seq<Address>, a: Address)
    ensures Nonce(Undo(nonces, creates), a) == Nonce(nonces, a) - CountOf(creates, a)
    decreases |creates|
  {
    if creates != [] {
      var n := |creates| - 1;
      UndoNonce(nonces[creates[n] := Nonce(nonces, creates[n]) - 1], creates[..n], a);
    }
  }

  /** How many increments of `a`'s nonce event `e` undoes. */
  function Undone(w: World, e: Event, a: Address): nat {
    if w.frames != [] && e == End(true) then CountOf(w.frames[|w.frames| - 1].creates, a) else 0
  }

  function TotalUndone(w: World, evs: seq<Event>, a: Address): nat {
    if evs == [] then 0
    else
      var n := |evs| - 1;
      TotalUndone(w, evs[..n], a) + Undone(Run(w, evs[..n]), evs[n], a)
  }

  /** Event `e` queues a transaction sent from `a`. */
  predicate Records(w: World, e: Event, a: Address) {
    && w.frames != [] && w.session.broadcast.Some? && w.session.broadcast.value.newOrigin == a
    && (match e
        case Call(caller, callee, isStatic) => callee.Contract? && !isStatic && Applies(w.session, caller, |w.frames|)
        case Create(caller) => Applies(w.session, caller, |w.frames|)
        case _ => false)
  }

  /** Event `e` is a create by `a` that is not queued: one made outside a broadcast, or deeper
      than it. It increments the nonce all the same. */
  predicate OwnCreate(w: World, e: Event, a: Address) {
    w.frames != [] && e.Create? && CreateBegun(w.session, e.caller, |w.frames|).1 == a && !Records(w, e, a)
  }

  function TotalOwn(w: World, evs: seq<Event>, a: Address): nat {
    if evs == [] then 0
    else
      var n := |evs| - 1;
      TotalOwn(w, evs[..n], a) + (if OwnCreate(Run(w, evs[..n]), evs[n], a) then 1 else 0)
  }

  /** The effect of one event on the nonce and the queued nonces of one account. */
  predicate Accounts(w: World, e: Event, t: Session, a: Address) {
    && Nonce(t.nonces, a) ==
       Nonce(w.session.nonces, a) + (if Records(w, e, a) || OwnCreate(w, e, a) then 1 else 0) - Undone(w, e, a)
    && NoncesOf(t.transactions, a) ==
       NoncesOf(w.session.transactions, a) + (if Records(w, e, a) then [Nonce(w.session.nonces, a)] else [])
  }

  lemma QueuedNonces(s: Session, to: Option<Address>, a: Address)
    requires s.broadcast.Some?
    ensures NoncesOf(Queued(s, to).transactions, a) ==
      NoncesOf(s.transactions, a) + (if s.broadcast.value.newOrigin == a then [Nonce(s.nonces, a)] else [])
  {
    assert Queued(s, to).transactions[..|s.transactions|] == s.transactions;
  }

  lemma NonceCall(w: World, e: Event, a: Address)
    requires w.frames != [] && e.Call?
    ensures Accounts(w, e, Step(w, e).session, a)
  {
    var s := w.session;
    if e.callee.Contract? && !e.isStatic && Applies(s, e.caller, |w.frames|) {
      QueuedNonces(s.(origin := s.broadcast.value.newOrigin), Some(e.callee.address), a);
    } else {
      var kept := NoncesOf(s.transactions, a);
      assert kept + [] == kept && Step(w, e).session.nonces == s.nonces;
    }
  }

  lemma NonceCreate(w: World, e: Event, a: Address)
    requires w.frames != [] && e.Create?
    ensures Accounts(w, e, Step(w, e).session, a)
  {
    var s := w.session;
    if Applies(s, e.caller, |w.frames|) {
      QueuedNonces(s.(origin := s.broadcast.value.newOrigin), None, a);
    }
  }

  lemma NonceEnd(w: World, e: Event, a: Address)
    requires w.frames != [] && e.End?
    ensures Accounts(w, e, Step(w, e).session, a)
  {
    if e.reverted { UndoNonce(w.session.nonces, w.frames[|w.frames| - 1].creates, a); }
  }

  lemma NonceStep(w: World, e: Event, a: Address)
    requires w.frames != []
    ensures Accounts(w, e, Step(w, e).session, a)
  {
    match e
    case Call(_, _, _) => NonceCall(w, e, a);
    case Create(_) => NonceCreate(w, e, a);
    case End(_) => NonceEnd(w, e, a);
    case _ =>
  }

  /** Event `i` queues no transaction of `a`, or does so when as many of its increments have been
      undone by reverts as it has made without queueing. */
  predicate QueuedInStep(w: World, evs: seq<Event>, i: nat, a: Address)
    requires i < |evs|
  {
    Records(At(w, evs, i), evs[i], a) ==> TotalOwn(w, evs[..i], a) == TotalUndone(w, evs[..i], a)
  }

  predicate AllInStep(w: World, evs: seq<Event>, a: Address) {
    forall i :: 0 <= i < |evs| ==> QueuedInStep(w, evs, i, a)
  }

  lemma QueuedInStepPrefix(w: World, evs: seq<Event>, n: nat, i: nat, a: Address)
    requires i < n <= |evs|
    ensures QueuedInStep(w, evs[..n], i, a) == QueuedInStep(w, evs, i, a)
  {
    AtPrefix(w, evs, n, i);
    assert evs[..n][..i] == evs[..i];
  }

  lemma AllInStepNext(w: World, evs: seq<Event>, a: Address)
    requires evs != []
    ensures
      var n := |evs| - 1;
      AllInStep(w, evs, a) <==> AllInStep(w, evs[..n], a) && QueuedInStep(w, evs, n, a)
  {
    var n := |evs| - 1;
    forall i | 0 <= i < n ensures QueuedInStep(w, evs[..n], i, a) == QueuedInStep(w, evs, i, a) {
      QueuedInStepPrefix(w, evs, n, i, a);
    }
  }

  lemma ConsecutiveStep(nonces: seq<int>, x: int, first: int)
    ensures Consecutive(nonces + [x], first) <==> Consecutive(nonces, first) && x == first + |nonces|
  {
    if Consecutive(nonces + [x], first) {
      assert (nonces + [x])[|nonces|] == first + |nonces|;
      forall j | 0 <= j < |nonces| ensures nonces[j] == first + j { assert (nonces + [x])[j] == first + j; }
    }
  }

  /** The nonce is always the first one plus one per transaction queued and per create made
      without queueing, minus the increments that reverts have undone. */
  lemma {:induction false} NonceAccount(w: World, evs: seq<Event>, a: Address)
    requires w.session.transactions == []
    ensures
      var s := Run(w, evs).session;
      Nonce(s.nonces, a) ==
        Nonce(w.session.nonces, a) + |NoncesOf(s.transactions, a)| + TotalOwn(w, evs, a) - TotalUndone(w, evs, a)
  {
    if evs != [] {
      var n := |evs| - 1;
      NonceAccount(w, evs[..n], a);
      var v := Run(w, evs[..n]);
      if v.frames != [] { NonceStep(v, evs[n], a); }
    }
  }

  /** The queued transactions of one origin, calls and creates mixed, carry consecutive nonces
      exactly when each is queued while its unqueued creates and its undone increments balance. */
  lemma {:induction false} NoncesConsecutive(w: World, evs: seq<Event>, a: Address)
    requires w.session.transactions == []
    ensures
      Consecutive(NoncesOf(Run(w, evs).session.transactions, a), Nonce(w.session.nonces, a)) <==>
      AllInStep(w, evs, a)
  {
    if evs != [] {
      var n := |evs| - 1;
      NoncesConsecutive(w, evs[..n], a);
      NonceAccount(w, evs[..n], a);
      AllInStepNext(w, evs, a);
      var v := Run(w, evs[..n]);
      if v.frames != [] {
        NextNonce(v, evs[n], a, Nonce(w.session.nonces, a), TotalOwn(w, evs[..n], a) - TotalUndone(w, evs[..n], a));
      }
    }
  }

  lemma NextNonce(v: World, e: Event, a: Address, first: int, offset: int)
    requires v.frames != []
    requires Nonce(v.session.nonces, a) == first + |NoncesOf(v.session.transactions, a)| + offset
    ensures
      Consecutive(NoncesOf(Step(v, e).session.transactions, a), first) <==>
      Consecutive(NoncesOf(v.session.transactions, a), first) && (Records(v, e, a) ==> offset == 0)
  {
    var nonces := NoncesOf(v.session.transactions, a);
    NonceStep(v, e, a);
    ConsecutiveStep(nonces, Nonce(v.session.nonces, a), first);
    assert nonces + [] == nonces;
  }

  lemma {:induction false} RunConcat(w: World, a: seq<Event>, b: seq<Event>)
    ensures Run(w, a + b) == Run(Run(w, a), b)
  {
    if b == [] {
      assert a + b == a;
    } else {
      assert (a + b)[..|a + b| - 1] == a + b[..|b| - 1];
      RunConcat(w, a, b[..|b| - 1]);
    }
  }

  lemma RunThree(w: World, e1: Event, e2: Event, e3: Event)
    requires w.frames != [] && Step(w, e1).frames != [] && Step(Step(w, e1), e2).frames != []
    ensures Run(w, [e1, e2, e3]) == Step(Step(Step(w, e1), e2), e3)
  {
    assert [e1, e2, e3][..2] == [e1, e2] && [e1, e2][..1] == [e1] && [e1][..0] == [];
    assert Run(w, []) == w;
    assert Run(w, [e1]) == Step(w, e1);
    assert Run(w, [e1, e2]) == Step(Step(w, e1), e2);
  }

  /** A single-call broadcast of a create, seen from the frame that made it. */
  lemma BroadcastCreate(w: World, caller: Address, a: Address)
    requires w.session.broadcast == None && w.session.transactions == [] && |w.frames| == 2 && w.frames[1].creates == []
    ensures
      var r := Run(w, [Start(caller, Some(a), true), Create(caller), End(false)]);
      var n := Nonce(w.session.nonces, a);
      && r.session.transactions == [Transaction(a, None, n)] && Nonce(r.session.nonces, a) == n + 1
      && r.session.broadcast == None && r.frames == [w.frames[0], w.frames[1].(creates := [a])]
  {
    var e1, e2, e3 := Start(caller, Some(a), true), Create(caller), End(false);
    var w1 := Step(w, e1);
    var w2 := Step(w1, e2);
    var f := w.frames[1].(creates := [a]);
    assert WithCreates(w.frames[1], [a]) == f && WithCreates(f, []) == f;
    assert w2.frames == w.frames[1 := f] + [Frame(a, [])];
    assert w2.frames[..2] == [w.frames[0], f];
    RunThree(w, e1, e2, e3);
  }

  /** The enclosing frame reverts and its caller broadcasts a call from the same origin. */
  lemma RevertThenCall(w: World, caller: Address, a: Address, to: Address)
    requires w.session.broadcast == None && |w.frames| == 2 && w.frames[1].creates == [a]
    ensures
      Run(w, [End(true), Start(caller, Some(a), true), Call(caller, Contract(to), false)]).session.transactions ==
      w.session.transactions + [Transaction(a, Some(to), Nonce(w.session.nonces, a) - 1)]
  {
    var e1, e2, e3 := End(true), Start(caller, Some(a), true), Call(caller, Contract(to), false);
    UndoNonce(w.session.nonces, [a], a);
    assert CountOf([a], a) == 1;
    var w1 := Step(w, e1);
    assert |w1.frames| == 1 && Nonce(w1.session.nonces, a) == Nonce(w.session.nonces, a) - 1;
    RunThree(w, e1, e2, e3);
  }

  /** The failing family: a frame that broadcasts a create reverts, and its caller broadcasts
      from the same origin again. Both transactions carry the same nonce. */
  lemma RepeatedNonce(w: World, caller: Address, a: Address, to: Address)
    requires w.session.broadcast == None && w.session.transactions == [] && |w.frames| == 2 && w.frames[1].creates == []
    ensures
      var evs := [Start(caller, Some(a), true), Create(caller), End(false), End(true),
                  Start(caller, Some(a), true), Call(caller, Contract(to), false)];
      var n := Nonce(w.session.nonces, a);
      Run(w, evs).session.transactions == [Transaction(a, None, n), Transaction(a, Some(to), n)]
  {
    var first := [Start(caller, Some(a), true), Create(caller), End(false)];
    var second := [End(true), Start(caller, Some(a), true), Call(caller, Contract(to), false)];
    BroadcastCreate(w, caller, a);
    RevertThenCall(Run(w, first), caller, a, to);
    RunConcat(w, first, second);
    assert first + second == [Start(caller, Some(a), true), Create(caller), End(false), End(true),
                              Start(caller, Some(a), true), Call(caller, Contract(to), false)];
  }

  /** `c` broadcasts a call from itself, is called back, and creates inside. */
  function CreateInside(c: Address, f: Address): seq<Event> {
    [Call(f, Contract(c), false), Create(c), End(false)]
  }

  lemma AfterCreateInside(w: World, c: Address, f: Address, b: Broadcast)
    requires w.session.broadcast == Some(b) && b.newOrigin == c == b.originalCaller && f != c
    requires |w.frames| == b.depth + 1 && w.frames[b.depth].creates == []
    ensures
      var r := Run(w, CreateInside(c, f));
      && r.session.broadcast == Some(b) && r.session.transactions == w.session.transactions
      && Nonce(r.session.nonces, c) == Nonce(w.session.nonces, c) + 1
      && |r.frames| == b.depth + 2
  {
    var e1, e2, e3 := Call(f, Contract(c), false), Create(c), End(false);
    RunThree(w, e1, e2, e3);
  }

  function StartAndCall(c: Address, f: Address): seq<Event> {
    [Start(c, Some(c), false), Call(c, Contract(f), false)]
  }

  function BackAndCall(c: Address, g: Address): seq<Event> {
    [End(false), End(false), Call(c, Contract(g), false)]
  }

  lemma CallBroadcast(w: World, c: Address, f: Address)
    requires w.session.broadcast == None && w.frames != []
    ensures
      var r, n := Run(w, StartAndCall(c, f)), Nonce(w.session.nonces, c);
      && r.session.broadcast == Some(Broadcast(c, c, w.session.origin, |w.frames|, false))
      && r.session.transactions == w.session.transactions + [Transaction(c, Some(f), n)]
      && Nonce(r.session.nonces, c) == n + 1 && r.frames == w.frames + [Frame(c, [])]
  {
    var evs := StartAndCall(c, f);
    assert evs[..1] == [evs[0]] && evs[..1][..0] == [] && Run(w, []) == w;
    assert Run(w, evs[..1]) == Step(w, evs[0]);
  }

  lemma ReturnAndCall(w: World, c: Address, g: Address, b: Broadcast)
    requires w.session.broadcast == Some(b) && b.newOrigin == c == b.originalCaller && !b.singleCall
    requires |w.frames| == b.depth + 2 && b.depth > 0
    ensures Run(w, BackAndCall(c, g)).session.transactions ==
      w.session.transactions + [Transaction(c, Some(g), Nonce(w.session.nonces, c))]
  {
    RunThree(w, End(false), End(false), Call(c, Contract(g), false));
  }

  lemma RunParts(w: World, a: seq<Event>, b: seq<Event>, c: seq<Event>)
    ensures Run(w, a + b + c) == Run(Run(Run(w, a), b), c)
  {
    RunConcat(w, a, b);
    RunConcat(w, a + b, c);
  }

  lemma GapAfter(v: World, c: Address, f: Address, g: Address, b: Broadcast)
    requires v.session.broadcast == Some(b) && b.newOrigin == c == b.originalCaller && f != c && !b.singleCall
    requires |v.frames| == b.depth + 1 && v.frames[b.depth].creates == [] && b.depth > 0
    ensures Run(Run(v, CreateInside(c, f)), BackAndCall(c, g)).session.transactions ==
      v.session.transactions + [Transaction(c, Some(g), Nonce(v.session.nonces, c) + 1)]
  {
    AfterCreateInside(v, c, f, b);
    ReturnAndCall(Run(v, CreateInside(c, f)), c, g, b);
  }

  /** The other failing family, without any revert: a create deeper than the broadcast by the
      account that started it is not queued, and leaves a gap. */
  lemma SkippedNonce(w: World, c: Address, f: Address, g: Address)
    requires w.session.broadcast == None && w.session.transactions == [] && w.frames != [] && f != c
    ensures
      var n := Nonce(w.session.nonces, c);
      Run(w, StartAndCall(c, f) + CreateInside(c, f) + BackAndCall(c, g)).session.transactions ==
      [Transaction(c, Some(f), n), Transaction(c, Some(g), n + 2)]
  {
    var n := Nonce(w.session.nonces, c);
    CallBroadcast(w, c, f);
    GapAfter(Run(w, StartAndCall(c, f)), c, f, g, Broadcast(c, c, w.session.origin, |w.frames|, false));
    RunParts(w, StartAndCall(c, f), CreateInside(c, f), BackAndCall(c, g));
    assert [] + [Transaction(c, Some(f), n)] + [Transaction(c, Some(g), n + 2)] ==
      [Transaction(c, Some(f), n), Transaction(c, Some(g), n + 2)];
  }
}
