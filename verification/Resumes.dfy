/**
  What a Resume record says about itself. The chronicle reads only the accesses filed under it;
  its own flag is pinned here: on every run it is that of the access that opened the record.
 */
module Resumes {
  import opened Layers
  import opened Recorder
  import opened RecorderRuns
  import opened RecorderLayout
  import opened RecorderTheorems
  import opened NetDiff

  predicate FlagRight(a: AccountAccess) {
    a.kind == Resume ==> a.storageAccesses != [] && (a.reverted <==> a.storageAccesses[0].reverted)
  }

  predicate FlagsRight(v: seq<AccountAccess>) {
    forall i :: 0 <= i < |v| ==> FlagRight(v[i])
  }

  /** No frame that is still open has a record flagged reverted in front. */
  predicate Live(full: Stack) {
    forall p :: 1 <= p < |full| ==> full[p] != [] && !full[p][0].reverted
  }

  predicate Right(full: Stack) {
    Live(full) && forall p :: 0 <= p < |full| ==> FlagsRight(full[p])
  }

  lemma MarkedRight(v: seq<AccountAccess>)
    requires FlagsRight(v)
    ensures FlagsRight(MarkVector(v))
  {
    forall i | 0 <= i < |v| ensures FlagRight(MarkVector(v)[i]) { assert FlagRight(v[i]); }
  }

  lemma LastRight(full: Stack, reverted: bool)
    requires full != [] && Right(full)
    ensures FlagsRight(LastVector(full, reverted))
  {
    MarkedRight(full[|full| - 1]);
  }

  lemma ConcatRight(v: seq<AccountAccess>, w: seq<AccountAccess>)
    requires FlagsRight(v) && FlagsRight(w)
    ensures FlagsRight(v + w)
  {
  }

  lemma RightPushed(full: Stack, g: Stack, entry: AccountAccess)
    requires full != [] && Right(full) && Pushed(full, g, [entry]) && entry.kind != Resume && !entry.reverted
    ensures Right(g)
  {
  }

  lemma RightTop(full: Stack, g: Stack, top: seq<AccountAccess>)
    requires Right(full) && TopIs(full, g, top) && FlagsRight(top)
    requires |full| > 1 ==> top != [] && !top[0].reverted
    ensures Right(g)
  {
  }

  lemma RightMerged(full: Stack, g: Stack, last: seq<AccountAccess>)
    requires Right(full) && Merged(full, g, last) && FlagsRight(last)
    ensures Right(g)
  {
    ConcatRight(full[|g| - 1], last);
  }

  lemma AppendedRight(v: seq<AccountAccess>, access: StorageAccess, depth: nat)
    requires FlagsRight(v) && v != [] && !v[0].reverted && !access.reverted
    ensures
      var r := AppendStorageAccess(v, access, depth);
      FlagsRight(r) && r != [] && !r[0].reverted
  {
    var r := AppendStorageAccess(v, access, depth);
    forall i | 0 <= i < |r| ensures FlagRight(r[i]) {
      if i < |v| { assert FlagRight(v[i]); }
    }
  }

  lemma NewTopRight(s: Machine, e: Event, n: nat, v: seq<AccountAccess>)
    requires s.frames != [] && !e.Enter? && !e.Exit? && FlagsRight(v)
    requires n > 0 ==> v != [] && !v[0].reverted
    ensures FlagsRight(NewTop(s, e, n, v))
    ensures n > 0 ==> NewTop(s, e, n, v) != [] && !NewTop(s, e, n, v)[0].reverted
  {
    if TouchesStorage(e) && n > 0 { AppendedRight(v, AccessOf(s, e), |s.frames|); }
  }

  /** The stack with `n` frames opened since recording began. */
  ghost predicate StackRight(stack: Stack, n: nat) {
    n <= |stack| <= n + 1 && Right(Full(stack, n))
  }

  lemma RightOther(s: Machine, e: Event, n: nat)
    requires s.frames != [] && !e.Enter? && !e.Exit? && Shape(s.stack, n, |s.frames| - n) && StackRight(s.stack, n)
    ensures StackRight(Step(s, e).stack, n)
  {
    var full := Full(s.stack, n);
    FullTop(s, e, n, |s.frames| - n);
    NewTopRight(s, e, n, full[n]);
    RightTop(full, Full(Step(s, e).stack, n), NewTop(s, e, n, full[n]));
  }

  lemma RightEntered(stack: Stack, n: nat, low: int, entry: AccountAccess)
    requires Shape(stack, n, low) && StackRight(stack, n)
    requires entry.depth == low + n && entry.kind != Resume && !entry.reverted
    ensures StackRight(PushFrame(stack, entry), n + 1)
  {
    FullEnter(stack, n, low, entry);
    RightPushed(Full(stack, n), Full(PushFrame(stack, entry), n + 1), entry);
  }

  lemma RightLeft(stack: Stack, n: nat, low: int, depth: nat, reverted: bool)
    requires n > 0 && Shape(stack, n, low) && StackRight(stack, n) && depth == low + n - 1 && depth > 0
    ensures StackRight(EndFrame(stack, depth, reverted), n - 1)
  {
    var full := Full(stack, n);
    FullLeave(stack, n, low, reverted, depth);
    LastRight(full, reverted);
    RightMerged(full, Full(EndFrame(stack, depth, reverted), n - 1), LastVector(full, reverted));
  }

  lemma RightPercolated(stack: Stack, low: int, depth: nat, reverted: bool)
    requires Shape(stack, 0, low) && StackRight(stack, 0) && depth == low - 1
    ensures StackRight(EndFrame(stack, depth, reverted), 0)
  {
    if depth > 0 {
      var full := Full(stack, 0);
      FullPercolate(stack, low, reverted, depth);
      LastRight(full, reverted);
      RightTop(full, Full(EndFrame(stack, depth, reverted), 0), LastVector(full, reverted));
    }
  }

  lemma RightStep(s: Machine, e: Event, n: nat)
    requires n < |s.frames| && Shape(s.stack, n, |s.frames| - n) && StackRight(s.stack, n)
    ensures StackRight(Step(s, e).stack, OpenAfter(n, e))
  {
    if e.Enter? {
      RightEntered(s.stack, n, |s.frames| - n, AccountAccess(e.kind, e.accessor, e.account, |s.frames|, false, []));
    } else if !e.Exit? {
      RightOther(s, e, n);
    } else if n > 0 {
      RightLeft(s.stack, n, |s.frames| - n, |s.frames| - 1, e.reverted);
    } else {
      RightPercolated(s.stack, |s.frames|, |s.frames| - 1, e.reverted);
    }
  }

  lemma {:induction false} RightHolds(m: Machine, evs: seq<Event>)
    requires Fresh(m) && ValidRun(|m.frames|, evs)
    ensures StackRight(Run(m, evs).stack, |OpensOf(evs)|)
  {
    if evs != [] {
      var n := |evs| - 1;
      ValidPrefix(|m.frames|, evs, n);
      RightHolds(m, evs[..n]);
      BeforeLast(m, evs);
      RightStep(At(m, evs, n), evs[n], |OpensOf(evs[..n])|);
    }
  }

  lemma {:induction false} InFlattened(stack: Stack, a: AccountAccess)
    requires a in Flatten(stack)
    ensures exists p :: 0 <= p < |stack| && a in stack[p]
  {
    var n := |stack| - 1;
    if a in stack[n] {
    } else {
      InFlattened(stack[..n], a);
      var p :| 0 <= p < n && a in stack[..n][p];
      assert a in stack[p];
    }
  }

  lemma {:induction false} StorageIn(v: seq<AccountAccess>, a: AccountAccess, access: StorageAccess)
    requires a in v && access in a.storageAccesses
    ensures access in StorageOf(v)
  {
    var n := |v| - 1;
    if a in v[..n] { StorageIn(v[..n], a, access); } else { assert a == v[n]; }
  }

  lemma RecordRight(stack: Stack, n: nat, a: AccountAccess)
    requires StackRight(stack, n) && a in Flatten(stack)
    ensures FlagRight(a)
  {
    InFlattened(stack, a);
    var p :| 0 <= p < |stack| && a in stack[p];
    var full := Full(stack, n);
    var q := if |stack| == n then p + 1 else p;
    assert full[q] == stack[p];
    var i :| 0 <= i < |stack[p]| && stack[p][i] == a;
    assert FlagRight(full[q][i]);
  }

  /** On every run, each Resume record holds an access, and is flagged exactly when the event
      that made the first one, and so opened the record, was rolled back. */
  lemma ResumeFlag(m: Machine, evs: seq<Event>, a: AccountAccess)
    requires Fresh(m) && ValidRun(|m.frames|, evs) && a in Flatten(Run(m, evs).stack) && a.kind == Resume
    ensures a.storageAccesses != []
    ensures exists i :: 0 <= i < |evs| && Leaves(m, evs, i, a.storageAccesses[0])
                        && (a.reverted <==> RolledBack(|m.frames|, evs, i))
  {
    RightHolds(m, evs);
    RecordRight(Run(m, evs).stack, |OpensOf(evs)|, a);
    StorageIn(Flatten(Run(m, evs).stack), a, a.storageAccesses[0]);
    RevertMarking(m, evs, a.storageAccesses[0]);
  }
}
