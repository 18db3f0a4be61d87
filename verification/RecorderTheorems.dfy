/**
  What the recorder keeps over every run: the stack is never ragged, its contents are the
  chronicle of the run, and flags are set exactly for what was rolled back.
 */
module RecorderTheorems {
  import opened Layers
  import opened Recorder
  import opened RecorderRuns
  import opened RecorderLayout

  /* ---------- The chronicle when the run grows by one event ---------- */

  lemma PlainPrefix(m: Machine, evs: seq<Event>, n: nat, i: nat)
    requires i < n <= |evs| && ValidRun(|m.frames|, evs) && ValidRun(|m.frames|, evs[..n])
    ensures Plain(m, evs[..n], i) == Plain(m, evs, i)
  {
    var d0 := |m.frames|;
    assert evs[..n][..i] == evs[..i];
    forall j | 0 <= j <= i ensures Depth(d0, evs[..n], j) == Depth(d0, evs, j) { DepthPrefix(d0, evs, n, j); }
    assert Started(evs[..n], i) == Started(evs, i);
    assert Opened(d0, evs[..n], i) == Opened(d0, evs, i);
  }

  /** The last event rolls event `i` back. */
  ghost predicate LastReverts(d0: nat, evs: seq<Event>, i: nat)
    requires i < |evs| - 1
  {
    RevertsAround(d0, evs, i, |evs| - 1)
  }

  lemma RolledBackPrefix(d0: nat, evs: seq<Event>, i: nat)
    requires i < |evs| - 1
    ensures RolledBack(d0, evs, i) == (RolledBack(d0, evs[..|evs| - 1], i) || LastReverts(d0, evs, i))
  {
    var n := |evs| - 1;
    forall j | 0 <= j <= n ensures Depth(d0, evs[..n], j) == Depth(d0, evs, j) { DepthPrefix(d0, evs, n, j); }
    forall k | i < k < n ensures RevertsAround(d0, evs[..n], i, k) == RevertsAround(d0, evs, i, k) { }
  }

  lemma EntryPrefix(m: Machine, evs: seq<Event>, i: nat)
    requires i < |evs| - 1 && ValidRun(|m.frames|, evs) && ValidRun(|m.frames|, evs[..|evs| - 1])
    ensures
      var before := Entry(m, evs[..|evs| - 1], i);
      Entry(m, evs, i) == if LastReverts(|m.frames|, evs, i) then MarkItems(before) else before
  {
    PlainPrefix(m, evs, |evs| - 1, i);
    RolledBackPrefix(|m.frames|, evs, i);
  }

  /* ---------- The invariant ---------- */

  /** The lowest depth the run reaches. */
  function Lowest(d0: nat, evs: seq<Event>, t: nat): int
    requires t <= |evs|
  {
    if t == 0 then d0
    else if Depth(d0, evs, t) < Lowest(d0, evs, t - 1) then Depth(d0, evs, t) else Lowest(d0, evs, t - 1)
  }

  lemma {:induction false} LowestIsLeast(d0: nat, evs: seq<Event>, t: nat)
    requires t <= |evs|
    ensures forall j :: 0 <= j <= t ==> Lowest(d0, evs, t) <= Depth(d0, evs, j)
    ensures exists j :: 0 <= j <= t && Lowest(d0, evs, t) == Depth(d0, evs, j)
  {
    if t == 0 {
      assert Lowest(d0, evs, 0) == Depth(d0, evs, 0);
    } else {
      LowestIsLeast(d0, evs, t - 1);
      assert Depth(d0, evs, t) < Lowest(d0, evs, t - 1) ==> Lowest(d0, evs, t) == Depth(d0, evs, t);
    }
  }

  lemma {:induction false} LowestPrefix(d0: nat, evs: seq<Event>, n: nat, t: nat)
    requires t <= n <= |evs|
    ensures Lowest(d0, evs[..n], t) == Lowest(d0, evs, t)
  {
    DepthPrefix(d0, evs, n, t);
    if t > 0 { LowestPrefix(d0, evs, n, t - 1); }
  }

  /** `opens` lists the events that opened the frames still open, outermost first. */
  ghost predicate Nesting(d0: nat, evs: seq<Event>, opens: seq<nat>) {
    var low := Lowest(d0, evs, |evs|);
    && |opens| == Depth(d0, evs, |evs|) - low
    && (forall p :: 0 <= p < |opens| ==> OpenSince(d0, evs, opens[p], low + p))
    && (forall p, q :: 0 <= p < q < |opens| ==> opens[p] < opens[q])
  }

  ghost predicate OpenSince(d0: nat, evs: seq<Event>, o: nat, depth: int) {
    && o < |evs| && evs[o].Enter?
    && Depth(d0, evs, o) == depth
    && forall j :: o < j <= |evs| ==> Depth(d0, evs, j) > depth
  }

  /** One vector per open frame, on top of at most one base vector; all of them non-empty. */
  ghost predicate Shape(stack: Stack, n: nat, low: int) {
    && n <= |stack| <= n + 1
    && (forall p :: 0 <= p < |stack| ==> stack[p] != [])
    && (forall p :: |stack| - n <= p < |stack| ==> stack[p][0].depth == low + p - (|stack| - n))
    && (|stack| == n + 1 ==> stack[0][0].depth >= low)
  }

  /** The stack with an empty base vector put under it when there is none. */
  function Full(stack: Stack, n: nat): (r: Stack)
    requires n <= |stack| <= n + 1
    ensures |r| == n + 1
  {
    if |stack| == n then [[]] + stack else stack
  }

  function ItemsOfEach(full: Stack): (r: seq<seq<Item>>)
    ensures |r| == |full|
  {
    seq(|full|, p requires 0 <= p < |full| => Items(full[p]))
  }

  /** The items of the vectors of the full stack. */
  function Vectors(stack: Stack, n: nat): (r: seq<seq<Item>>)
    requires n <= |stack| <= n + 1
    ensures |r| == n + 1
  {
    ItemsOfEach(Full(stack, n))
  }

  /* ---------- Nesting ---------- */

  function OpensAfter(opens: seq<nat>, e: Event, n: nat): seq<nat> {
    if e.Enter? then opens + [n]
    else if e.Exit? && opens != [] then opens[..|opens| - 1]
    else opens
  }

  /** The events that opened the frames still open after the run. */
  function OpensOf(evs: seq<Event>): seq<nat> {
    if evs == [] then [] else
      var n := |evs| - 1;
      OpensAfter(OpensOf(evs[..n]), evs[n], n)
  }

  lemma OpenSinceStep(d0: nat, evs: seq<Event>, o: nat, depth: int)
    requires evs != [] && OpenSince(d0, evs[..|evs| - 1], o, depth) && Depth(d0, evs, |evs|) > depth
    ensures OpenSince(d0, evs, o, depth)
  {
    var n := |evs| - 1;
    forall j | o <= j <= n ensures Depth(d0, evs[..n], j) == Depth(d0, evs, j) { DepthPrefix(d0, evs, n, j); }
  }

  /** Entering keeps the lowest depth, ending the last open frame lowers it. */
  lemma LowestStep(d0: nat, evs: seq<Event>, opens: seq<nat>)
    requires evs != [] && Nesting(d0, evs[..|evs| - 1], opens)
    ensures
      var n := |evs| - 1;
      && Depth(d0, evs, n) == Depth(d0, evs[..n], n)
      && Lowest(d0, evs, n + 1) == Lowest(d0, evs[..n], n) - (if evs[n].Exit? && opens == [] then 1 else 0)
  {
    var n := |evs| - 1;
    DepthPrefix(d0, evs, n, n);
    LowestPrefix(d0, evs, n, n);
  }

  lemma NestingStep(d0: nat, evs: seq<Event>, opens: seq<nat>)
    requires evs != [] && Nesting(d0, evs[..|evs| - 1], opens)
    ensures Nesting(d0, evs, OpensAfter(opens, evs[|evs| - 1], |evs| - 1))
  {
    var n := |evs| - 1;
    var after := OpensAfter(opens, evs[n], n);
    var low := Lowest(d0, evs, n + 1);
    LowestStep(d0, evs, opens);
    forall p | 0 <= p < |after| ensures OpenSince(d0, evs, after[p], low + p) {
      if p < |opens| { OpenSinceStep(d0, evs, opens[p], low + p); }
    }
  }

  lemma {:induction false} NestingHolds(d0: nat, evs: seq<Event>)
    ensures Nesting(d0, evs, OpensOf(evs))
  {
    if evs != [] {
      NestingHolds(d0, evs[..|evs| - 1]);
      NestingStep(d0, evs, OpensOf(evs[..|evs| - 1]));
    }
  }

  lemma {:induction false} OpensCut(evs: seq<Event>)
    ensures Cuts(OpensOf(evs), |evs|)
  {
    if evs != [] { OpensCut(evs[..|evs| - 1]); }
  }

  /** A reverting exit reaches back exactly to the opening of the running frame. */
  lemma RevertReach(d0: nat, evs: seq<Event>, opens: seq<nat>, i: nat)
    requires evs != [] && Nesting(d0, evs[..|evs| - 1], opens) && i < |evs| - 1
    requires evs[|evs| - 1] == Exit(true) && Depth(d0, evs, |evs| - 1) > 1
    requires Cuts(opens, |evs| - 1)
    ensures LastReverts(d0, evs, i) <==> i >= Cut(opens, |evs| - 1, |opens|)
  {
    var n := |evs| - 1;
    var pre := evs[..n];
    forall j | 0 <= j <= n ensures Depth(d0, pre, j) == Depth(d0, evs, j) { DepthPrefix(d0, evs, n, j); }
    if opens != [] {
      var o := opens[|opens| - 1];
      assert OpenSince(d0, pre, o, Depth(d0, pre, n) - 1);
      assert i < o ==> Depth(d0, evs, o) < Depth(d0, evs, n);
    } else {
      LowestPrefix(d0, evs, n, n);
      LowestIsLeast(d0, evs, n);
    }
  }

  lemma OpenedIffOpens(d0: nat, evs: seq<Event>)
    requires evs != []
    ensures Opened(d0, evs, |evs| - 1) <==> OpensOf(evs[..|evs| - 1]) != []
  {
    var n := |evs| - 1;
    NestingHolds(d0, evs[..n]);
    DepthPrefix(d0, evs, n, n);
    LowestPrefix(d0, evs, n, n);
    LowestIsLeast(d0, evs, n);
  }

  /* ---------- Contents ---------- */

  /** A revert that the recorder acts on. */
  predicate Undoes(e: Event, depth: int) { e == Exit(true) && depth > 1 }

  /** What the last event adds to the top of the full stack when it does not end a frame. */
  function Added(s: Machine, e: Event, inside: bool, started: bool): seq<Item>
    requires s.frames != [] && !e.Exit?
  {
    match e
    case Enter(kind, accessor, account, _) => [OnAccount(kind, accessor, account, |s.frames|, false)]
    case Ext(kind, account) => [OnAccount(kind, Current(s), account, |s.frames|, false)]
    case Destroy(account) => if started then [OnAccount(SelfDestruct, Current(s), account, |s.frames|, false)] else []
    case Sload(_) => if inside then [OnStorage(AccessOf(s, e))] else []
    case Sstore(_, _) => if inside then [OnStorage(AccessOf(s, e))] else []
    case Cheat => []
  }

  lemma LastEntry(m: Machine, evs: seq<Event>)
    requires evs != [] && ValidRun(|m.frames|, evs) && ValidRun(|m.frames|, evs[..|evs| - 1])
    ensures
      var n := |evs| - 1;
      Entry(m, evs, n) ==
        if evs[n].Exit? then []
        else Added(At(m, evs, n), evs[n], OpensOf(evs[..n]) != [], Started(evs[..n], n))
  {
    var n := |evs| - 1;
    OpenedIffOpens(|m.frames|, evs);
    assert !RolledBack(|m.frames|, evs, n);
    assert Started(evs[..n], n) == Started(evs, n);
  }

  /** The entries `c` of a run become `c'` when event `e` happens in state `s`: those of the
      running frame are flagged by a revert, and the event's own entry is added. */
  ghost predicate EntriesGrow(s: Machine, e: Event, opens: seq<nat>, c: seq<seq<Item>>, c': seq<seq<Item>>)
    requires s.frames != [] && Cuts(opens, |c|)
  {
    if Undoes(e, |s.frames|) then
      |c'| == |c| + 1 && Flagged(c, c'[..|c|], Cut(opens, |c|, |opens|)) && c'[|c|] == []
    else
      Pushed(c, c', if e.Exit? then [] else Added(s, e, opens != [], s.stack != []))
  }

  lemma LastRevertsIff(d0: nat, evs: seq<Event>, i: nat)
    requires i < |evs| - 1 && Cuts(OpensOf(evs[..|evs| - 1]), |evs| - 1)
    ensures
      var n, opens := |evs| - 1, OpensOf(evs[..|evs| - 1]);
      LastReverts(d0, evs, i) <==> Undoes(evs[n], Depth(d0, evs, n)) && i >= Cut(opens, n, |opens|)
  {
    var n, opens := |evs| - 1, OpensOf(evs[..|evs| - 1]);
    if Undoes(evs[n], Depth(d0, evs, n)) {
      NestingHolds(d0, evs[..n]);
      RevertReach(d0, evs, opens, i);
    }
  }

  /** Entries `c` become `c'` when the running frame, opened at `o`, ends by revert or not. */
  predicate Reflagged(c: seq<seq<Item>>, c': seq<seq<Item>>, undone: bool, o: nat) {
    && |c'| == |c| + 1
    && forall i :: 0 <= i < |c| ==> c'[i] == if undone && i >= o then MarkItems(c[i]) else c[i]
  }

  lemma OldEntries(m: Machine, evs: seq<Event>)
    requires evs != [] && ValidRun(|m.frames|, evs) && ValidRun(|m.frames|, evs[..|evs| - 1])
    requires Cuts(OpensOf(evs[..|evs| - 1]), |evs| - 1)
    ensures
      var n, opens := |evs| - 1, OpensOf(evs[..|evs| - 1]);
      Reflagged(Entries(m, evs[..n]), Entries(m, evs), Undoes(evs[n], Depth(|m.frames|, evs, n)), Cut(opens, n, |opens|))
  {
    var n, opens := |evs| - 1, OpensOf(evs[..|evs| - 1]);
    forall i | 0 <= i < n
      ensures Entries(m, evs)[i] ==
        if Undoes(evs[n], Depth(|m.frames|, evs, n)) && i >= Cut(opens, n, |opens|)
        then MarkItems(Entries(m, evs[..n])[i]) else Entries(m, evs[..n])[i]
    {
      EntryPrefix(m, evs, i);
      LastRevertsIff(|m.frames|, evs, i);
    }
  }

  lemma GrowFrom(s: Machine, e: Event, opens: seq<nat>, c: seq<seq<Item>>, c': seq<seq<Item>>)
    requires s.frames != [] && Cuts(opens, |c|)
    requires Reflagged(c, c', Undoes(e, |s.frames|), Cut(opens, |c|, |opens|))
    requires c'[|c|] == if e.Exit? then [] else Added(s, e, opens != [], s.stack != [])
    ensures EntriesGrow(s, e, opens, c, c')
  {
  }

  lemma EntriesStep(m: Machine, evs: seq<Event>, s: Machine)
    requires evs != [] && ValidRun(|m.frames|, evs) && ValidRun(|m.frames|, evs[..|evs| - 1])
    requires s == At(m, evs, |evs| - 1) && |s.frames| == Depth(|m.frames|, evs, |evs| - 1)
    requires s.stack != [] <==> Started(evs[..|evs| - 1], |evs| - 1)
    ensures Cuts(OpensOf(evs[..|evs| - 1]), |evs| - 1)
    ensures EntriesGrow(s, evs[|evs| - 1], OpensOf(evs[..|evs| - 1]), Entries(m, evs[..|evs| - 1]), Entries(m, evs))
  {
    var n := |evs| - 1;
    OpensCut(evs[..n]);
    OldEntries(m, evs);
    LastEntry(m, evs);
    GrowFrom(s, evs[n], OpensOf(evs[..n]), Entries(m, evs[..n]), Entries(m, evs));
  }

  /* ---------- The stack, one event at a time ---------- */

  lemma FullEnter(stack: Stack, n: nat, low: int, entry: AccountAccess)
    requires Shape(stack, n, low) && entry.depth == low + n
    ensures Shape(PushFrame(stack, entry), n + 1, low)
    ensures Pushed(Full(stack, n), Full(PushFrame(stack, entry), n + 1), [entry])
  {
  }

  function LastVector(full: Stack, reverted: bool): seq<AccountAccess>
    requires full != []
  {
    if reverted then MarkVector(full[|full| - 1]) else full[|full| - 1]
  }

  lemma EndsLast(stack: Stack, depth: nat, reverted: bool)
    requires |stack| == 1 && stack[0] != [] && depth > 0
    ensures EndFrame(stack, depth, reverted) == [LastVector(stack, reverted)]
  {
  }

  lemma EndsAbove(stack: Stack, depth: nat, reverted: bool)
    requires |stack| >= 2 && depth > 0 && forall p :: 0 <= p < |stack| ==> stack[p] != []
    requires stack[|stack| - 1][0].depth == depth
    ensures Merged(stack, EndFrame(stack, depth, reverted), LastVector(stack, reverted))
  {
  }

  lemma ShapeMerged(stack: Stack, after: Stack, last: seq<AccountAccess>, n: nat, low: int)
    requires n > 0 && Shape(stack, n, low) && Merged(stack, after, last)
    ensures Shape(after, n - 1, low)
  {
  }

  lemma FullLeaveAlone(stack: Stack, low: int, reverted: bool, depth: nat)
    requires |stack| == 1 && Shape(stack, 1, low) && depth > 0
    ensures
      var after := EndFrame(stack, depth, reverted);
      && after != [] && Shape(after, 0, low)
      && Merged(Full(stack, 1), Full(after, 0), LastVector(Full(stack, 1), reverted))
  {
    EndsLast(stack, depth, reverted);
    assert [] + LastVector(stack, reverted) == LastVector(stack, reverted);
  }

  lemma FullMerged(stack: Stack, after: Stack, last: seq<AccountAccess>, n: nat)
    requires 0 < n <= |stack| <= n + 1 && |stack| >= 2 && Merged(stack, after, last)
    ensures n - 1 <= |after| <= n && Merged(Full(stack, n), Full(after, n - 1), last)
  {
  }

  /** A frame opened since recording began ends. */
  lemma FullLeave(stack: Stack, n: nat, low: int, reverted: bool, depth: nat)
    requires n > 0 && Shape(stack, n, low) && depth == low + n - 1 && depth > 0
    ensures EndFrame(stack, depth, reverted) != [] && stack != []
    ensures Shape(EndFrame(stack, depth, reverted), n - 1, low)
    ensures Merged(Full(stack, n), Full(EndFrame(stack, depth, reverted), n - 1), LastVector(Full(stack, n), reverted))
  {
    if |stack| == 1 {
      FullLeaveAlone(stack, low, reverted, depth);
    } else {
      var after, last := EndFrame(stack, depth, reverted), LastVector(stack, reverted);
      EndsAbove(stack, depth, reverted);
      ShapeMerged(stack, after, last, n, low);
      FullMerged(stack, after, last, n);
    }
  }

  /** A frame opened before recording began ends, and is not the root frame. */
  lemma FullPercolate(stack: Stack, low: int, reverted: bool, depth: nat)
    requires Shape(stack, 0, low) && depth == low - 1 && depth > 0
    ensures EndFrame(stack, depth, reverted) != [] <==> stack != []
    ensures Shape(EndFrame(stack, depth, reverted), 0, low - 1)
    ensures TopIs(Full(stack, 0), Full(EndFrame(stack, depth, reverted), 0), LastVector(Full(stack, 0), reverted))
  {
  }

  /** What an event other than an enter or exit makes of the top vector `v` of the full stack,
      with `n` frames opened since recording began. */
  function NewTop(s: Machine, e: Event, n: nat, v: seq<AccountAccess>): seq<AccountAccess>
    requires s.frames != []
  {
    match e
    case Sload(_) => if n == 0 then v else AppendStorageAccess(v, AccessOf(s, e), |s.frames|)
    case Sstore(_, _) => if n == 0 then v else AppendStorageAccess(v, AccessOf(s, e), |s.frames|)
    case Ext(kind, account) => v + [AccountAccess(kind, Current(s), account, |s.frames|, false, [])]
    case Destroy(account) =>
      if s.stack == [] then v else v + [AccountAccess(SelfDestruct, Current(s), account, |s.frames|, false, [])]
    case _ => v
  }

  lemma FullReplaced(stack: Stack, n: nat, low: int, top: seq<AccountAccess>)
    requires Shape(stack, n, low) && stack != [] && top != [] && top[0].depth == Top(stack)[0].depth
    ensures Shape(WithTop(stack, top), n, low)
    ensures TopIs(Full(stack, n), Full(WithTop(stack, top), n), top)
  {
  }

  lemma FullStorage(stack: Stack, n: nat, low: int, access: StorageAccess, depth: nat)
    requires Shape(stack, n, low) && depth == low + n
    ensures
      var after := RecordStorage(stack, access, depth);
      && Shape(after, n, low) && |after| == |stack|
      && TopIs(Full(stack, n), Full(after, n),
               if n == 0 then Full(stack, n)[n] else AppendStorageAccess(Full(stack, n)[n], access, depth))
  {
    if stack != [] {
      FullReplaced(stack, n, low, AppendStorageAccess(Top(stack), access, depth));
    }
  }

  lemma FullExt(stack: Stack, n: nat, low: int, access: AccountAccess)
    requires Shape(stack, n, low) && access.depth == low + n
    ensures
      var after := RecordExt(stack, access);
      Shape(after, n, low) && after != [] && TopIs(Full(stack, n), Full(after, n), Full(stack, n)[n] + [access])
  {
    if stack != [] {
      FullReplaced(stack, n, low, Top(stack) + [access]);
    } else {
      assert [] + [access] == [access];
    }
  }

  lemma FullTop(s: Machine, e: Event, n: nat, low: int)
    requires s.frames != [] && Shape(s.stack, n, low) && |s.frames| == low + n && !e.Enter? && !e.Exit?
    ensures Shape(Step(s, e).stack, n, low)
    ensures Step(s, e).stack != [] <==> s.stack != [] || e.Ext?
    ensures TopIs(Full(s.stack, n), Full(Step(s, e).stack, n), NewTop(s, e, n, Full(s.stack, n)[n]))
  {
    var depth := |s.frames|;
    match e
    case Ext(kind, account) => FullExt(s.stack, n, low, AccountAccess(kind, Current(s), account, depth, false, []));
    case Destroy(account) =>
      if s.stack != [] {
        FullExt(s.stack, n, low, AccountAccess(SelfDestruct, Current(s), account, depth, false, []));
      }
    case Sload(_) => FullStorage(s.stack, n, low, AccessOf(s, e), depth);
    case Sstore(_, _) => FullStorage(s.stack, n, low, AccessOf(s, e), depth);
    case Cheat =>
  }

  lemma ItemsPushed(v: seq<AccountAccess>, a: AccountAccess)
    requires a.storageAccesses == [] && a.kind != Resume
    ensures Items(v + [a]) == Items(v) + [OnAccount(a.kind, a.accessor, a.account, a.depth, a.reverted)]
  {
    assert (v + [a])[..|v|] == v;
  }

  lemma NewTopStorage(s: Machine, e: Event, n: nat, v: seq<AccountAccess>)
    requires s.frames != [] && TouchesStorage(e)
    requires n > 0 ==> v != [] && v[0].depth < |s.frames|
    ensures Items(NewTop(s, e, n, v)) == Items(v) + Added(s, e, n > 0, s.stack != [])
  {
    if n > 0 { ItemsAppended(v, AccessOf(s, e), |s.frames|); } else { assert Items(v) + [] == Items(v); }
  }

  lemma NewTopAccount(s: Machine, e: Event, n: nat, v: seq<AccountAccess>)
    requires s.frames != [] && (e.Ext? || e.Destroy?)
    ensures Items(NewTop(s, e, n, v)) == Items(v) + Added(s, e, n > 0, s.stack != [])
  {
    if e.Ext? {
      ItemsPushed(v, AccountAccess(e.extKind, Current(s), e.account, |s.frames|, false, []));
    } else if s.stack != [] {
      ItemsPushed(v, AccountAccess(SelfDestruct, Current(s), e.account, |s.frames|, false, []));
    } else {
      assert Items(v) + [] == Items(v);
    }
  }

  lemma NewTopItems(s: Machine, e: Event, n: nat, v: seq<AccountAccess>)
    requires s.frames != [] && !e.Enter? && !e.Exit?
    requires n > 0 ==> v != [] && v[0].depth < |s.frames|
    ensures Items(NewTop(s, e, n, v)) == Items(v) + Added(s, e, n > 0, s.stack != [])
  {
    if TouchesStorage(e) { NewTopStorage(s, e, n, v); }
    else if e.Cheat? { assert Items(v) + [] == Items(v); }
    else { NewTopAccount(s, e, n, v); }
  }

  /** With frames open the top vector starts with a record of the running frame's caller. */
  lemma TopDepth(stack: Stack, n: nat, low: int)
    requires Shape(stack, n, low) && n > 0
    ensures Full(stack, n)[n] != [] && Full(stack, n)[n][0].depth == low + n - 1
  {
  }

  /* ---------- The layout, one event at a time ---------- */

  lemma ItemsOne(a: AccountAccess)
    requires a.storageAccesses == [] && a.kind != Resume
    ensures Items([a]) == [OnAccount(a.kind, a.accessor, a.account, a.depth, a.reverted)]
  {
    ItemsPushed([], a);
    assert [] + [a] == [a];
  }

  lemma LaidEntered(stack: Stack, entry: AccountAccess, opens: seq<nat>, c: seq<seq<Item>>, c': seq<seq<Item>>)
    requires Shape(stack, |opens|, entry.depth - |opens|)
    requires Laid(Vectors(stack, |opens|), c, opens) && Pushed(c, c', Items([entry]))
    ensures
      var after := PushFrame(stack, entry);
      && Shape(after, |opens| + 1, entry.depth - |opens|)
      && Laid(Vectors(after, |opens| + 1), c', opens + [|c|])
  {
    var full, g := Full(stack, |opens|), Full(PushFrame(stack, entry), |opens| + 1);
    FullEnter(stack, |opens|, entry.depth - |opens|, entry);
    VectorsPushed(full, g, [entry]);
    LaidPush(ItemsOfEach(full), ItemsOfEach(g), c, c', opens, Items([entry]));
  }

  lemma LaidEnter(s: Machine, e: Event, opens: seq<nat>, c: seq<seq<Item>>, c': seq<seq<Item>>)
    requires s.frames != [] && e.Enter? && Shape(s.stack, |opens|, |s.frames| - |opens|)
    requires Laid(Vectors(s.stack, |opens|), c, opens) && EntriesGrow(s, e, opens, c, c')
    ensures Shape(Step(s, e).stack, |opens| + 1, |s.frames| - |opens|)
    ensures Laid(Vectors(Step(s, e).stack, |opens| + 1), c', opens + [|c|])
  {
    var entry := AccountAccess(e.kind, e.accessor, e.account, |s.frames|, false, []);
    ItemsOne(entry);
    LaidEntered(s.stack, entry, opens, c, c');
  }

  lemma LaidOther(s: Machine, e: Event, opens: seq<nat>, c: seq<seq<Item>>, c': seq<seq<Item>>)
    requires s.frames != [] && !e.Enter? && !e.Exit? && Shape(s.stack, |opens|, |s.frames| - |opens|)
    requires Laid(Vectors(s.stack, |opens|), c, opens) && EntriesGrow(s, e, opens, c, c')
    ensures Shape(Step(s, e).stack, |opens|, |s.frames| - |opens|)
    ensures Step(s, e).stack != [] <==> s.stack != [] || e.Ext?
    ensures Laid(Vectors(Step(s, e).stack, |opens|), c', opens)
  {
    var n, t := |opens|, Step(s, e).stack;
    FullTop(s, e, n, |s.frames| - n);
    if n > 0 { TopDepth(s.stack, n, |s.frames| - n); }
    NewTopItems(s, e, n, Full(s.stack, n)[n]);
    VectorsTop(Full(s.stack, n), Full(t, n), NewTop(s, e, n, Full(s.stack, n)[n]));
    LaidGrow(Vectors(s.stack, n), Vectors(t, n), c, c', opens, c'[|c|]);
  }

  lemma VectorsPushed(full: Stack, g: Stack, v: seq<AccountAccess>)
    requires Pushed(full, g, v)
    ensures Pushed(ItemsOfEach(full), ItemsOfEach(g), Items(v))
  {
  }

  lemma VectorsTop(full: Stack, g: Stack, v: seq<AccountAccess>)
    requires TopIs(full, g, v)
    ensures TopIs(ItemsOfEach(full), ItemsOfEach(g), Items(v))
  {
  }

  lemma VectorsMerged(full: Stack, g: Stack, last: seq<AccountAccess>)
    requires Merged(full, g, last)
    ensures Merged(ItemsOfEach(full), ItemsOfEach(g), Items(last))
  {
    ItemsConcat(full[|g| - 1], last);
  }

  lemma LastItems(full: Stack, reverted: bool)
    requires full != []
    ensures
      var last := Items(full[|full| - 1]);
      Items(LastVector(full, reverted)) == if reverted then MarkItems(last) else last
  {
    ItemsMarked(full[|full| - 1]);
  }

  /** The full stack `full` becomes `after` when a frame ends. */
  lemma LaidLeave(full: Stack, after: Stack, reverted: bool, opens: seq<nat>, c: seq<seq<Item>>,
                  flagged: seq<seq<Item>>, c': seq<seq<Item>>)
    requires Laid(ItemsOfEach(full), c, opens) && Pushed(flagged, c', [])
    requires if reverted then Flagged(c, flagged, Cut(opens, |c|, |opens|)) else flagged == c
    requires if opens == [] then TopIs(full, after, LastVector(full, reverted))
             else Merged(full, after, LastVector(full, reverted))
    ensures Laid(ItemsOfEach(after), c', if opens == [] then [] else opens[..|opens| - 1])
  {
    var last, f, g := LastVector(full, reverted), ItemsOfEach(full), ItemsOfEach(after);
    LastItems(full, reverted);
    assert f[|opens|] == Items(full[|full| - 1]);
    if opens == [] {
      VectorsTop(full, after, last);
      LaidExit(f, g, c, flagged, c', opens, reverted);
    } else {
      VectorsMerged(full, after, last);
      LaidExit(f, g, c, flagged, c', opens, reverted);
    }
  }

  lemma LaidRoot(s: Machine, e: Event, c: seq<seq<Item>>, c': seq<seq<Item>>)
    requires |s.frames| == 1 && e.Exit? && |s.stack| <= 1
    requires Laid(Vectors(s.stack, 0), c, []) && EntriesGrow(s, e, [], c, c')
    ensures Laid(Vectors(s.stack, 0), c', [])
  {
    LaidExit(Vectors(s.stack, 0), Vectors(s.stack, 0), c, c, c', [], false);
  }

  lemma LaidExited(stack: Stack, depth: nat, reverted: bool, opens: seq<nat>, c: seq<seq<Item>>,
                   flagged: seq<seq<Item>>, c': seq<seq<Item>>)
    requires depth > 0 && opens != [] && Shape(stack, |opens|, depth + 1 - |opens|)
    requires Laid(Vectors(stack, |opens|), c, opens) && Pushed(flagged, c', [])
    requires if reverted then Flagged(c, flagged, Cut(opens, |c|, |opens|)) else flagged == c
    ensures
      var after := EndFrame(stack, depth, reverted);
      && Shape(after, |opens| - 1, depth - (|opens| - 1)) && after != [] && stack != []
      && Laid(Vectors(after, |opens| - 1), c', opens[..|opens| - 1])
  {
    var n := |opens|;
    FullLeave(stack, n, depth + 1 - n, reverted, depth);
    LaidLeave(Full(stack, n), Full(EndFrame(stack, depth, reverted), n - 1), reverted, opens, c, flagged, c');
  }

  lemma LaidPercolated(stack: Stack, depth: nat, reverted: bool, c: seq<seq<Item>>, flagged: seq<seq<Item>>,
                       c': seq<seq<Item>>)
    requires depth > 0 && Shape(stack, 0, depth + 1)
    requires Laid(Vectors(stack, 0), c, []) && Pushed(flagged, c', [])
    requires if reverted then Flagged(c, flagged, 0) else flagged == c
    ensures
      var after := EndFrame(stack, depth, reverted);
      && Shape(after, 0, depth) && (after != [] <==> stack != [])
      && Laid(Vectors(after, 0), c', [])
  {
    FullPercolate(stack, depth + 1, reverted, depth);
    LaidLeave(Full(stack, 0), Full(EndFrame(stack, depth, reverted), 0), reverted, [], c, flagged, c');
  }

  /** The stack of `t` follows that of `s` by event `e` and is laid out over `c`. */
  ghost predicate Follows(s: Machine, t: Machine, e: Event, opens: seq<nat>, c: seq<seq<Item>>) {
    && Shape(t.stack, |opens|, |t.frames| - |opens|)
    && (t.stack != [] <==> s.stack != [] || e.Enter? || e.Ext?)
    && Laid(Vectors(t.stack, |opens|), c, opens)
  }

  /** How the entries change when a frame other than the root ends. */
  lemma FlaggedByExit(s: Machine, e: Event, opens: seq<nat>, c: seq<seq<Item>>, c': seq<seq<Item>>) returns (flagged: seq<seq<Item>>)
    requires |s.frames| > 1 && e.Exit? && Cuts(opens, |c|) && EntriesGrow(s, e, opens, c, c')
    ensures Pushed(flagged, c', [])
    ensures if e.reverted then Flagged(c, flagged, Cut(opens, |c|, |opens|)) else flagged == c
  {
    flagged := if e.reverted then c'[..|c|] else c;
  }

  lemma LaidDeep(s: Machine, e: Event, opens: seq<nat>, c: seq<seq<Item>>, c': seq<seq<Item>>)
    requires |s.frames| > 1 && e.Exit? && Shape(s.stack, |opens|, |s.frames| - |opens|)
    requires Laid(Vectors(s.stack, |opens|), c, opens) && EntriesGrow(s, e, opens, c, c')
    ensures Follows(s, Step(s, e), e, OpensAfter(opens, e, |c|), c')
  {
    var flagged := FlaggedByExit(s, e, opens, c, c');
    if opens == [] { LaidPercolated(s.stack, |s.frames| - 1, e.reverted, c, flagged, c'); }
    else { LaidExited(s.stack, |s.frames| - 1, e.reverted, opens, c, flagged, c'); }
  }

  lemma LaidStep(s: Machine, e: Event, opens: seq<nat>, c: seq<seq<Item>>, c': seq<seq<Item>>)
    requires s.frames != [] && Shape(s.stack, |opens|, |s.frames| - |opens|)
    requires |s.frames| == 1 && e.Exit? ==> opens == []
    requires Laid(Vectors(s.stack, |opens|), c, opens) && EntriesGrow(s, e, opens, c, c')
    ensures Follows(s, Step(s, e), e, OpensAfter(opens, e, |c|), c')
  {
    if e.Enter? { LaidEnter(s, e, opens, c, c'); }
    else if !e.Exit? { LaidOther(s, e, opens, c, c'); }
    else if |s.frames| == 1 { LaidRoot(s, e, c, c'); }
    else { LaidDeep(s, e, opens, c, c'); }
  }

  /* ---------- Every run ---------- */

  lemma StartedStep(evs: seq<Event>)
    requires evs != []
    ensures var n := |evs| - 1;
      Started(evs, n + 1) <==> Started(evs[..n], n) || evs[n].Enter? || evs[n].Ext?
  {
    var n := |evs| - 1;
    if j :| 0 <= j < n && (evs[..n][j].Enter? || evs[..n][j].Ext?) {
      assert evs[j].Enter? || evs[j].Ext?;
    }
    if j :| 0 <= j < n + 1 && (evs[j].Enter? || evs[j].Ext?) {
      assert j < n ==> evs[..n][j].Enter? || evs[..n][j].Ext?;
    }
  }

  lemma RootHasNoOpens(d0: nat, evs: seq<Event>)
    requires evs != [] && ValidRun(d0, evs) && Depth(d0, evs, |evs| - 1) == 1
    ensures OpensOf(evs[..|evs| - 1]) == []
  {
    var n := |evs| - 1;
    NestingHolds(d0, evs[..n]);
    DepthPrefix(d0, evs, n, n);
    LowestPrefix(d0, evs, n, n);
    LowestIsLeast(d0, evs, n);
  }

  /** After the run the stack has the right shape and holds the run's entries. */
  ghost predicate Inv(m: Machine, evs: seq<Event>, stack: Stack)
    requires ValidRun(|m.frames|, evs)
  {
    var opens := OpensOf(evs);
    && Shape(stack, |opens|, Depth(|m.frames|, evs, |evs|) - |opens|)
    && (stack != [] <==> Started(evs, |evs|))
    && Laid(Vectors(stack, |opens|), Entries(m, evs), opens)
  }

  lemma {:induction false} InvHolds(m: Machine, evs: seq<Event>)
    requires Fresh(m) && ValidRun(|m.frames|, evs)
    ensures Inv(m, evs, Run(m, evs).stack)
  {
    if evs == [] {
      assert Depth(|m.frames|, evs, 0) == |m.frames|;
    } else {
      var n := |evs| - 1;
      ValidPrefix(|m.frames|, evs, n);
      InvHolds(m, evs[..n]);
      DepthPrefix(|m.frames|, evs, n, n);
      var s := At(m, evs, n);
      EntriesStep(m, evs, s);
      if |s.frames| == 1 { RootHasNoOpens(|m.frames|, evs); }
      LaidStep(s, evs[n], OpensOf(evs[..n]), Entries(m, evs[..n]), Entries(m, evs));
      StartedStep(evs);
    }
  }

  lemma {:induction false} ItemsFlattened(full: Stack, f: seq<seq<Item>>)
    requires |f| == |full| && forall p :: 0 <= p < |full| ==> f[p] == Items(full[p])
    ensures Items(Flatten(full)) == Concat(f)
  {
    if full != [] {
      var n := |full| - 1;
      ItemsFlattened(full[..n], f[..n]);
      ItemsConcat(Flatten(full[..n]), full[n]);
    }
  }

  lemma {:induction false} FlattenUnder(stack: Stack)
    ensures Flatten([[]] + stack) == Flatten(stack)
  {
    if stack != [] {
      FlattenUnder(stack[..|stack| - 1]);
      assert ([[]] + stack)[..|stack|] == [[]] + stack[..|stack| - 1];
    }
  }

  lemma LaidOut(stack: Stack, n: nat, c: seq<seq<Item>>, opens: seq<nat>)
    requires n == |opens| <= |stack| <= n + 1 && Laid(Vectors(stack, n), c, opens)
    ensures Items(Flatten(stack)) == Concat(c)
  {
    var f := Vectors(stack, n);
    ItemsFlattened(Full(stack, n), f);
    LaidAll(f, c, opens, |f|);
    assert f[..|f|] == f && c[..|c|] == c;
    FlattenUnder(stack);
  }

  /** Main result: on every run, the recorded accesses read in order are the chronicle of the
      run, each entry flagged exactly when a frame around it other than the root, opened before
      or after recording began, was rolled back. */
  lemma RecordsTheChronicle(m: Machine, evs: seq<Event>)
    requires Fresh(m) && ValidRun(|m.frames|, evs)
    ensures Items(Flatten(Run(m, evs).stack)) == Chronicle(m, evs)
  {
    InvHolds(m, evs);
    LaidOut(Run(m, evs).stack, |OpensOf(evs)|, Entries(m, evs), OpensOf(evs));
  }

  /** On every run no vector is empty, and there is one vector per frame opened since recording
      began and still open, over at most one base vector. */
  lemma StackDiscipline(m: Machine, evs: seq<Event>)
    requires Fresh(m) && ValidRun(|m.frames|, evs)
    ensures
      var stack := Run(m, evs).stack;
      var open := Depth(|m.frames|, evs, |evs|) - Lowest(|m.frames|, evs, |evs|);
      && open <= |stack| <= open + 1
      && forall p :: 0 <= p < |stack| ==> stack[p] != []
  {
    InvHolds(m, evs);
    NestingHolds(|m.frames|, evs);
  }
}
