/**
  Where a storage access is filed. The recorder files it under the last record of the running
  frame's vector when that is a Resume record, whoever that record belongs to. Over runs this is
  a question about events: did the last accesses of an inner frame leave such a record behind?
 */
module Filing {
  import opened Wrappers
  import opened Layers
  import opened Recorder
  import opened RecorderRuns
  import opened RecorderLayout
  import opened RecorderTheorems
  import opened NetDiff

  /* ---------- In terms of events ---------- */

  /** Events that put a record of their own into a vector. */
  predicate AddsRecord(e: Event) { e.Enter? || e.Ext? || e.Destroy? }

  /** Event `j` added a record inside the frame that is running before event `n`. */
  ghost predicate AddsWithin(d0: nat, evs: seq<Event>, j: nat, n: nat)
    requires j < n <= |evs|
  {
    AddsRecord(evs[j]) && forall i :: j <= i <= n ==> Depth(d0, evs, i) >= Depth(d0, evs, n)
  }

  ghost predicate Joined(d0: nat, evs: seq<Event>, n: nat)
    requires n <= |evs|
  {
    exists j :: 0 <= j < n && AddsWithin(d0, evs, j, n)
  }

  /** Event `k` is a storage access of a recorded frame that had added a record of its own
      besides the one it was entered with. */
  ghost predicate Resumed(d0: nat, evs: seq<Event>, k: nat)
    requires k < |evs|
  {
    TouchesStorage(evs[k]) && Opened(d0, evs, k) && Joined(d0, evs, k)
  }

  /** Event `k` is such an access, made deeper than `depth`, and no record was added since. */
  ghost predicate Lingers(d0: nat, evs: seq<Event>, k: nat, depth: int)
    requires k < |evs|
  {
    Resumed(d0, evs, k) && Depth(d0, evs, k) > depth && forall j :: k < j < |evs| ==> !AddsRecord(evs[j])
  }

  ghost predicate Misfiles(d0: nat, evs: seq<Event>, depth: int) {
    exists k :: 0 <= k < |evs| && Lingers(d0, evs, k, depth)
  }

  lemma JoinedPrefix(d0: nat, evs: seq<Event>, n: nat, t: nat)
    requires t <= n <= |evs|
    ensures Joined(d0, evs[..n], t) == Joined(d0, evs, t)
  {
    forall i | 0 <= i <= t ensures Depth(d0, evs[..n], i) == Depth(d0, evs, i) { DepthPrefix(d0, evs, n, i); }
    forall j | 0 <= j < t ensures AddsWithin(d0, evs[..n], j, t) == AddsWithin(d0, evs, j, t) { }
  }

  lemma ResumedPrefix(d0: nat, evs: seq<Event>, n: nat, k: nat)
    requires k < n <= |evs|
    ensures Resumed(d0, evs[..n], k) == Resumed(d0, evs, k) && Depth(d0, evs[..n], k) == Depth(d0, evs, k)
  {
    JoinedPrefix(d0, evs, n, k);
    forall i | 0 <= i <= k ensures Depth(d0, evs[..n], i) == Depth(d0, evs, i) { DepthPrefix(d0, evs, n, i); }
  }

  lemma LingersPrefix(d0: nat, evs: seq<Event>, k: nat, depth: int)
    requires k < |evs| - 1
    ensures
      var n := |evs| - 1;
      Lingers(d0, evs, k, depth) <==> Lingers(d0, evs[..n], k, depth) && !AddsRecord(evs[n])
  {
    ResumedPrefix(d0, evs, |evs| - 1, k);
  }

  lemma MisfilesStep(d0: nat, evs: seq<Event>, depth: int)
    requires evs != []
    ensures
      var n := |evs| - 1;
      Misfiles(d0, evs, depth) <==>
        (!AddsRecord(evs[n]) && Misfiles(d0, evs[..n], depth)) || (Resumed(d0, evs, n) && Depth(d0, evs, n) > depth)
  {
    var n := |evs| - 1;
    if k :| 0 <= k < |evs| && Lingers(d0, evs, k, depth) && k < n {
      LingersPrefix(d0, evs, k, depth);
      assert Lingers(d0, evs[..n], k, depth);
    }
    if k :| 0 <= k < n && Lingers(d0, evs[..n], k, depth) {
      LingersPrefix(d0, evs, k, depth);
    }
    if Resumed(d0, evs, n) && Depth(d0, evs, n) > depth {
      assert Lingers(d0, evs, n, depth);
    }
  }

  /* ---------- The end of the running frame's vector ---------- */

  /** Whether the vector holds one record only, and the depth of its last record if that is a
      Resume. */
  datatype Tail = Tail(single: bool, resume: Option<int>)

  function TailNext(t: Tail, e: Event, depth: int, inside: bool): Tail {
    if e.Enter? then Tail(true, None)
    else if e.Exit? then Tail(false, t.resume)
    else if AddsRecord(e) then Tail(false, None)
    else if TouchesStorage(e) && inside && !t.single && t.resume.None? then Tail(false, Some(depth - 1))
    else t
  }

  function TailOf(d0: nat, evs: seq<Event>): Tail {
    if evs == [] then Tail(false, None)
    else
      var n := |evs| - 1;
      TailNext(TailOf(d0, evs[..n]), evs[n], Depth(d0, evs, n), OpensOf(evs[..n]) != [])
  }

  ghost predicate ResumeMeans(d0: nat, evs: seq<Event>, resume: Option<int>) {
    && (forall depth: int :: Misfiles(d0, evs, depth) <==> resume.Some? && resume.value >= depth)
    && (resume.Some? ==> resume.value >= Depth(d0, evs, |evs|) - 1)
  }

  ghost predicate SingleMeans(d0: nat, evs: seq<Event>, t: Tail) {
    && (t.single ==> t.resume.None?)
    && (OpensOf(evs) != [] ==> (t.single <==> !Joined(d0, evs, |evs|)))
  }

  /** Joining from one event to the next. */
  lemma JoinedStep(d0: nat, evs: seq<Event>)
    requires evs != [] && !evs[|evs| - 1].Exit?
    ensures
      var n := |evs| - 1;
      Joined(d0, evs, n + 1) <==> !evs[n].Enter? && (AddsRecord(evs[n]) || Joined(d0, evs[..n], n))
  {
    var n, t := |evs| - 1, |evs|;
    JoinedPrefix(d0, evs, n, n);
    forall j | 0 <= j < t
      ensures AddsWithin(d0, evs, j, t) <==> !evs[n].Enter? && if j == n then AddsRecord(evs[n]) else AddsWithin(d0, evs, j, n)
    {
      AddsWithinStep(d0, evs, j);
    }
    if !evs[n].Enter? && AddsRecord(evs[n]) { assert AddsWithin(d0, evs, n, t); }
    if j :| 0 <= j < n && AddsWithin(d0, evs, j, n) { assert !evs[n].Enter? ==> AddsWithin(d0, evs, j, t); }
    if j :| 0 <= j < t && AddsWithin(d0, evs, j, t) { assert j < n ==> AddsWithin(d0, evs, j, n); }
  }

  lemma AddsWithinStep(d0: nat, evs: seq<Event>, j: nat)
    requires j < |evs| && !evs[|evs| - 1].Exit?
    ensures
      var n := |evs| - 1;
      AddsWithin(d0, evs, j, n + 1) <==> !evs[n].Enter? && if j == n then AddsRecord(evs[n]) else AddsWithin(d0, evs, j, n)
  {
    var n := |evs| - 1;
    assert Depth(d0, evs, n + 1) == Depth(d0, evs, n) + (if evs[n].Enter? then 1 else 0);
  }

  /** A frame that an inner one returns to has a record of it. */
  lemma JoinedByInner(d0: nat, evs: seq<Event>)
    requires evs != [] && evs[|evs| - 1].Exit? && OpensOf(evs[..|evs| - 1]) != []
    ensures Joined(d0, evs, |evs|)
  {
    var n := |evs| - 1;
    var opens := OpensOf(evs[..n]);
    NestingHolds(d0, evs[..n]);
    forall i | 0 <= i <= n ensures Depth(d0, evs[..n], i) == Depth(d0, evs, i) { DepthPrefix(d0, evs, n, i); }
    var o := opens[|opens| - 1];
    assert OpenSince(d0, evs[..n], o, Depth(d0, evs, n) - 1);
    assert AddsWithin(d0, evs, o, n + 1);
  }

  lemma SingleStep(d0: nat, evs: seq<Event>, t: Tail)
    requires evs != [] && SingleMeans(d0, evs[..|evs| - 1], t)
    ensures
      var n := |evs| - 1;
      SingleMeans(d0, evs, TailNext(t, evs[n], Depth(d0, evs, n), OpensOf(evs[..n]) != []))
  {
    if evs[|evs| - 1].Exit? {
      if OpensOf(evs[..|evs| - 1]) != [] { JoinedByInner(d0, evs); }
    } else {
      JoinedStep(d0, evs);
    }
  }

  lemma ResumeStep(d0: nat, evs: seq<Event>, t: Tail)
    requires evs != [] && SingleMeans(d0, evs[..|evs| - 1], t) && ResumeMeans(d0, evs[..|evs| - 1], t.resume)
    ensures
      var n := |evs| - 1;
      ResumeMeans(d0, evs, TailNext(t, evs[n], Depth(d0, evs, n), OpensOf(evs[..n]) != []).resume)
  {
    var n := |evs| - 1;
    OpenedIffOpens(d0, evs);
    JoinedPrefix(d0, evs, n, n);
    DepthPrefix(d0, evs, n, n);
    forall depth: int
      ensures Misfiles(d0, evs, depth) <==>
        (!AddsRecord(evs[n]) && Misfiles(d0, evs[..n], depth)) || (Resumed(d0, evs, n) && Depth(d0, evs, n) > depth)
    {
      MisfilesStep(d0, evs, depth);
    }
  }

  lemma {:induction false} TailMeans(d0: nat, evs: seq<Event>)
    ensures SingleMeans(d0, evs, TailOf(d0, evs)) && ResumeMeans(d0, evs, TailOf(d0, evs).resume)
  {
    if evs != [] {
      var n := |evs| - 1;
      TailMeans(d0, evs[..n]);
      SingleStep(d0, evs, TailOf(d0, evs[..n]));
      ResumeStep(d0, evs, TailOf(d0, evs[..n]));
    }
  }

  /** What the tail says about filing the running frame's next access. */
  lemma TailFiles(d0: nat, evs: seq<Event>)
    ensures
      var t, depth := TailOf(d0, evs), Depth(d0, evs, |evs|);
      && (t.single ==> t.resume.None?)
      && (t.resume.Some? ==> t.resume.value >= depth - 1)
      && (Misfiles(d0, evs, depth) <==> t.resume.Some? && t.resume.value >= depth)
  {
    TailMeans(d0, evs);
  }

  /* ---------- The stack agrees ---------- */

  predicate SameFrame(a: AccountAccess, b: AccountAccess) {
    a.depth == b.depth && a.accessor == b.accessor && a.account == b.account
  }

  /** A Resume at the depth of the vector's own frame is that frame's. */
  predicate VectorEnds(v: seq<AccountAccess>, t: Tail) {
    && v != [] && (|v| == 1 <==> t.single)
    && var last := v[|v| - 1];
       && (last.kind == Resume <==> t.resume.Some?)
       && (t.resume.Some? ==> last.depth == t.resume.value && (last.depth == v[0].depth ==> SameFrame(last, v[0])))
  }

  /** With `n` frames opened since recording began, the innermost running at `depth`. */
  ghost predicate Ends(stack: Stack, n: nat, depth: nat, t: Tail) {
    && (t.single ==> t.resume.None?)
    && (n > 0 && t.resume.Some? ==> t.resume.value >= depth - 1)
    && (n > 0 ==> stack != [] && VectorEnds(Top(stack), t))
  }

  lemma EndsExit(stack: Stack, n: nat, low: int, t: Tail, depth: nat, reverted: bool)
    requires n > 1 && Shape(stack, n, low) && Ends(stack, n, depth + 1, t) && depth == low + n - 1 && depth > 0
    ensures Ends(EndFrame(stack, depth, reverted), n - 1, depth, Tail(false, t.resume))
  {
    EndsAbove(stack, depth, reverted);
  }

  lemma EndsStorage(v: seq<AccountAccess>, t: Tail, access: StorageAccess, depth: nat)
    requires VectorEnds(v, t) && v[0].depth == depth - 1 && (t.single ==> t.resume.None?)
    ensures VectorEnds(AppendStorageAccess(v, access, depth),
                       if !t.single && t.resume.None? then Tail(false, Some(depth - 1)) else t)
  {
  }

  lemma EndsOther(s: Machine, e: Event, n: nat, t: Tail)
    requires s.frames != [] && !e.Enter? && !e.Exit? && Shape(s.stack, n, |s.frames| - n) && Ends(s.stack, n, |s.frames|, t)
    ensures Ends(Step(s, e).stack, n, |s.frames|, TailNext(t, e, |s.frames|, n > 0))
  {
    if n > 0 {
      TopDepth(s.stack, n, |s.frames| - n);
      if TouchesStorage(e) { EndsStorage(Top(s.stack), t, AccessOf(s, e), |s.frames|); }
    }
  }

  lemma EndsStep(s: Machine, e: Event, n: nat, t: Tail)
    requires n < |s.frames| && Shape(s.stack, n, |s.frames| - n) && Ends(s.stack, n, |s.frames|, t)
    ensures Ends(Step(s, e).stack, OpenAfter(n, e), |Step(s, e).frames|, TailNext(t, e, |s.frames|, n > 0))
  {
    if e.Exit? {
      if n > 1 { EndsExit(s.stack, n, |s.frames| - n, t, |s.frames| - 1, e.reverted); }
    } else if !e.Enter? {
      EndsOther(s, e, n, t);
    }
  }

  lemma {:induction false} EndsHolds(m: Machine, evs: seq<Event>)
    requires Fresh(m) && ValidRun(|m.frames|, evs)
    ensures Ends(Run(m, evs).stack, |OpensOf(evs)|, |Run(m, evs).frames|, TailOf(|m.frames|, evs))
  {
    if evs != [] {
      var n := |evs| - 1;
      ValidPrefix(|m.frames|, evs, n);
      EndsHolds(m, evs[..n]);
      BeforeLast(m, evs);
      EndsStep(At(m, evs, n), evs[n], |OpensOf(evs[..n])|, TailOf(|m.frames|, evs[..n]));
    }
  }

  /* ---------- Whose records the vectors start with ---------- */

  predicate EnteredBy(v: seq<AccountAccess>, e: Event) {
    v != [] && e.Enter? && v[0].accessor == e.accessor && v[0].account == e.account
  }

  /** The vectors of the full stack, above the base, start with the records of the frames that
      `owners` opened. */
  ghost predicate Owned(full: Stack, owners: seq<Event>) {
    && |full| == |owners| + 1
    && forall p :: 1 <= p <= |owners| ==> EnteredBy(full[p], owners[p - 1])
  }

  function Owners(evs: seq<Event>): (r: seq<Event>)
    ensures |r| == |OpensOf(evs)|
  {
    OpensCut(evs);
    seq(|OpensOf(evs)|, p requires 0 <= p < |OpensOf(evs)| => evs[OpensOf(evs)[p]])
  }

  function OwnersNext(owners: seq<Event>, e: Event): seq<Event> {
    if e.Enter? then owners + [e] else if e.Exit? && owners != [] then owners[..|owners| - 1] else owners
  }

  lemma OwnersStep(evs: seq<Event>)
    requires evs != []
    ensures Owners(evs) == OwnersNext(Owners(evs[..|evs| - 1]), evs[|evs| - 1])
  {
    OpensCut(evs);
    OpensCut(evs[..|evs| - 1]);
  }

  lemma OwnedPushed(full: Stack, g: Stack, v: seq<AccountAccess>, owners: seq<Event>, e: Event)
    requires Owned(full, owners) && Pushed(full, g, v) && EnteredBy(v, e)
    ensures Owned(g, owners + [e])
  {
  }

  lemma OwnedTop(full: Stack, g: Stack, top: seq<AccountAccess>, owners: seq<Event>)
    requires Owned(full, owners) && TopIs(full, g, top)
    requires owners != [] ==> EnteredBy(top, owners[|owners| - 1])
    ensures Owned(g, owners)
  {
  }

  lemma OwnedMerged(full: Stack, g: Stack, last: seq<AccountAccess>, owners: seq<Event>)
    requires Owned(full, owners) && Merged(full, g, last)
    ensures Owned(g, owners[..|owners| - 1])
  {
  }

  lemma EnteredStays(s: Machine, e: Event, n: nat, v: seq<AccountAccess>, owner: Event)
    requires s.frames != [] && EnteredBy(v, owner)
    ensures EnteredBy(NewTop(s, e, n, v), owner)
  {
  }

  /** `owners` opened the frames above the base. */
  ghost predicate StackOwned(stack: Stack, owners: seq<Event>) {
    |owners| <= |stack| <= |owners| + 1 && Owned(Full(stack, |owners|), owners)
  }

  lemma OwnedOther(s: Machine, e: Event, n: nat, owners: seq<Event>)
    requires s.frames != [] && !e.Enter? && !e.Exit? && Shape(s.stack, n, |s.frames| - n)
    requires n == |owners| && Owned(Full(s.stack, n), owners)
    ensures StackOwned(Step(s, e).stack, owners)
  {
    var v := Full(s.stack, n)[n];
    FullTop(s, e, n, |s.frames| - n);
    assert n > 0 ==> EnteredBy(v, owners[n - 1]);
    if n > 0 { EnteredStays(s, e, n, v, owners[n - 1]); }
    OwnedTop(Full(s.stack, n), Full(Step(s, e).stack, n), NewTop(s, e, n, v), owners);
  }

  lemma OwnedExit(stack: Stack, n: nat, low: int, depth: nat, reverted: bool, owners: seq<Event>)
    requires 0 < n == |owners| && Shape(stack, n, low) && depth == low + n - 1 && depth > 0
    requires Owned(Full(stack, n), owners)
    ensures StackOwned(EndFrame(stack, depth, reverted), owners[..n - 1])
  {
    FullLeave(stack, n, low, reverted, depth);
    OwnedMerged(Full(stack, n), Full(EndFrame(stack, depth, reverted), n - 1), LastVector(Full(stack, n), reverted), owners);
  }

  lemma NoneOwned(stack: Stack, depth: nat, reverted: bool)
    requires |stack| <= 1
    ensures StackOwned(EndFrame(stack, depth, reverted), [])
  {
  }

  lemma OwnedEnter(stack: Stack, n: nat, low: int, entry: AccountAccess, owners: seq<Event>, e: Event)
    requires n == |owners| && Shape(stack, n, low) && entry.depth == low + n && EnteredBy([entry], e)
    requires Owned(Full(stack, n), owners)
    ensures StackOwned(PushFrame(stack, entry), owners + [e])
  {
    FullEnter(stack, n, low, entry);
    OwnedPushed(Full(stack, n), Full(PushFrame(stack, entry), n + 1), [entry], owners, e);
  }

  lemma OwnedStep(s: Machine, e: Event, owners: seq<Event>)
    requires |owners| < |s.frames| && Shape(s.stack, |owners|, |s.frames| - |owners|) && StackOwned(s.stack, owners)
    ensures StackOwned(Step(s, e).stack, OwnersNext(owners, e))
  {
    var n := |owners|;
    if e.Enter? {
      OwnedEnter(s.stack, n, |s.frames| - n, AccountAccess(e.kind, e.accessor, e.account, |s.frames|, false, []), owners, e);
    } else if !e.Exit? {
      OwnedOther(s, e, n, owners);
    } else if n > 0 {
      OwnedExit(s.stack, n, |s.frames| - n, |s.frames| - 1, e.reverted, owners);
    } else {
      NoneOwned(s.stack, |s.frames| - 1, e.reverted);
    }
  }

  lemma {:induction false} OwnedHolds(m: Machine, evs: seq<Event>)
    requires Fresh(m) && ValidRun(|m.frames|, evs)
    ensures StackOwned(Run(m, evs).stack, Owners(evs))
  {
    if evs != [] {
      var n := |evs| - 1;
      ValidPrefix(|m.frames|, evs, n);
      OwnedHolds(m, evs[..n]);
      BeforeLast(m, evs);
      OwnersStep(evs);
      OwnedStep(At(m, evs, n), evs[n], Owners(evs[..n]));
    }
  }

  /* ---------- The result ---------- */

  /** `filed` is the record that `access` was appended to. */
  predicate Holds(filed: AccountAccess, access: StorageAccess) {
    filed.storageAccesses != [] && filed.storageAccesses[|filed.storageAccesses| - 1] == access
  }

  lemma FiledIn(stack: Stack, t: Tail, access: StorageAccess, depth: nat)
    requires stack != [] && VectorEnds(Top(stack), t) && Top(stack)[0].depth == depth - 1
    requires t.resume.Some? ==> !t.single && t.resume.value >= depth - 1
    ensures
      var after := RecordStorage(stack, access, depth);
      after != [] && Top(after) != [] &&
      var filed := Top(after)[|Top(after)| - 1];
      Holds(filed, access) &&
      if t.resume.Some? && t.resume.value >= depth then filed.depth >= depth else SameFrame(filed, Top(stack)[0])
  {
  }

  lemma OwnedTopmost(stack: Stack, owners: seq<Event>)
    requires StackOwned(stack, owners) && owners != []
    ensures stack != [] && EnteredBy(Top(stack), owners[|owners| - 1])
  {
    assert Full(stack, |owners|)[|owners|] == Top(stack);
  }

  lemma OwnFrame(m: Machine, evs: seq<Event>)
    requires Fresh(m) && evs != [] && ValidRun(|m.frames|, evs) && OpensOf(evs[..|evs| - 1]) != []
    ensures
      var n, d0, opens := |evs| - 1, |m.frames|, OpensOf(evs[..|evs| - 1]);
      var stack, frame := At(m, evs, n).stack, opens[|opens| - 1];
      && frame < n && evs[frame].Enter? && Depth(d0, evs, frame) == Depth(d0, evs, n) - 1
      && stack != [] && EnteredBy(Top(stack), evs[frame])
  {
    var n, d0 := |evs| - 1, |m.frames|;
    var opens := OpensOf(evs[..n]);
    ValidPrefix(d0, evs, n);
    OwnedHolds(m, evs[..n]);
    OpensCut(evs[..n]);
    NestingHolds(d0, evs[..n]);
    DepthPrefix(d0, evs, n, n);
    DepthPrefix(d0, evs, n, opens[|opens| - 1]);
    assert OpenSince(d0, evs[..n], opens[|opens| - 1], Depth(d0, evs, n) - 1);
    OwnedTopmost(At(m, evs, n).stack, Owners(evs[..n]));
  }

  /** The record belongs to the frame that event `frame` opened. */
  ghost predicate BelongsTo(filed: AccountAccess, d0: nat, evs: seq<Event>, frame: nat) {
    && frame < |evs| && evs[frame].Enter? && filed.depth == Depth(d0, evs, frame)
    && filed.accessor == evs[frame].accessor && filed.account == evs[frame].account
  }

  /** On every run, a storage access of a recorded frame goes to a record of that frame, unless
      an access of a deeper frame lingers: one made by a frame that had added a record besides
      the one it was entered with, and with no record added since. In that case, and only then,
      it goes to a record of a deeper frame. Either way it comes last. */
  lemma FiledUnderOwnFrame(m: Machine, evs: seq<Event>)
    requires Fresh(m) && evs != [] && ValidRun(|m.frames|, evs)
    requires TouchesStorage(evs[|evs| - 1]) && Opened(|m.frames|, evs, |evs| - 1)
    ensures OpensOf(evs[..|evs| - 1]) != [] && Run(m, evs).stack != [] && Top(Run(m, evs).stack) != []
    ensures
      var n, d0, opens := |evs| - 1, |m.frames|, OpensOf(evs[..|evs| - 1]);
      var top, depth := Top(Run(m, evs).stack), Depth(d0, evs, n);
      var filed := top[|top| - 1];
      && Holds(filed, AccessOf(At(m, evs, n), evs[n]))
      && if Misfiles(d0, evs[..n], depth) then filed.depth >= depth
         else BelongsTo(filed, d0, evs, opens[|opens| - 1])
  {
    var n, d0 := |evs| - 1, |m.frames|;
    OpenedIffOpens(d0, evs);
    OwnFrame(m, evs);
    FilingState(m, evs);
    var s := At(m, evs, n);
    FiledIn(s.stack, TailOf(d0, evs[..n]), AccessOf(s, evs[n]), |s.frames|);
  }

  lemma FilingState(m: Machine, evs: seq<Event>)
    requires Fresh(m) && evs != [] && ValidRun(|m.frames|, evs) && OpensOf(evs[..|evs| - 1]) != []
    ensures
      var n, d0 := |evs| - 1, |m.frames|;
      var s, t, depth := At(m, evs, n), TailOf(d0, evs[..n]), Depth(d0, evs, n);
      && |s.frames| == depth && s.stack != [] && VectorEnds(Top(s.stack), t) && Top(s.stack)[0].depth == depth - 1
      && (t.resume.Some? ==> !t.single && t.resume.value >= depth - 1)
      && (Misfiles(d0, evs[..n], depth) <==> t.resume.Some? && t.resume.value >= depth)
  {
    var n, d0 := |evs| - 1, |m.frames|;
    ValidPrefix(d0, evs, n);
    BeforeLast(m, evs);
    EndsHolds(m, evs[..n]);
    TailFiles(d0, evs[..n]);
    DepthPrefix(d0, evs, n, n);
    var s, k := At(m, evs, n), |OpensOf(evs[..n])|;
    TopDepth(s.stack, k, |s.frames| - k);
  }

  /* ---------- A run that misfiles ---------- */

  lemma Extend(m: Machine, evs: seq<Event>, e: Event)
    requires ValidRun(|m.frames|, evs) && Run(m, evs).frames != []
    ensures ValidRun(|m.frames|, evs + [e]) && Run(m, evs + [e]) == Step(Run(m, evs), e)
  {
    var n, d0 := |evs|, |m.frames|;
    var longer := evs + [e];
    assert longer[..n] == evs;
    forall t | 0 <= t < n + 1 ensures Depth(d0, longer, t) >= 1 { DepthPrefix(d0, longer, n, t); }
  }

  /** An outer frame calls an inner one, which inspects an account and then loads a slot. */
  function InnerLoad(caller: Address, outer: Address, inner: Address, seen: Address, slot: Slot): seq<Event> {
    [Enter(Kind.Call, caller, outer, outer), Enter(Kind.Call, outer, inner, inner), Ext(Balance, seen), Sload(slot)]
  }

  lemma AfterInnerLoad(m: Machine, caller: Address, outer: Address, inner: Address, seen: Address, slot: Slot)
    requires Fresh(m)
    ensures
      var evs, d := InnerLoad(caller, outer, inner, seen, slot), |m.frames|;
      && ValidRun(d, evs)
      && var r := Run(m, evs);
         && |r.frames| == d + 2 && r.frames[d].target == outer && |r.stack| == 2
         && r.stack[0] == [AccountAccess(Kind.Call, caller, outer, d, false, [])]
         && |r.stack[1]| == 3 && r.stack[1][2].(storageAccesses := []) == AccountAccess(Resume, outer, inner, d + 1, false, [])
         && |r.stack[1][2].storageAccesses| == 1
  {
    var evs, d := InnerLoad(caller, outer, inner, seen, slot), |m.frames|;
    var a, b, c := evs[..1], evs[..2], evs[..3];
    assert evs[..0] == [] && Run(m, []) == m;
    assert [] + [evs[0]] == a && a + [evs[1]] == b && b + [evs[2]] == c && c + [evs[3]] == evs;
    var r1 := AccountAccess(Kind.Call, caller, outer, d, false, []);
    var r2 := AccountAccess(Kind.Call, outer, inner, d + 1, false, []);
    var r3 := AccountAccess(Balance, inner, seen, d + 2, false, []);
    Extend(m, [], evs[0]);
    assert Run(m, a).stack == [[r1]] && Run(m, a).frames == m.frames + [Frame(outer, m.world)];
    Extend(m, a, evs[1]);
    assert Run(m, b).stack == [[r1], [r2]] && |Run(m, b).frames| == d + 2 && Current(Run(m, b)) == inner;
    Extend(m, b, evs[2]);
    assert Run(m, c).stack == [[r1], [r2] + [r3]];
    Extend(m, c, evs[3]);
  }

  /** It happens: once the inner frame has returned, the outer frame's next load is filed under
      the inner frame's account, next to the inner frame's own load. */
  lemma MisfiledAfterInnerFrame(m: Machine, caller: Address, outer: Address, inner: Address, seen: Address,
                                slot: Slot, next: Slot)
    requires Fresh(m)
    ensures
      var before := InnerLoad(caller, outer, inner, seen, slot) + [Exit(false)];
      var evs := before + [Sload(next)];
      && ValidRun(|m.frames|, before) && ValidRun(|m.frames|, evs)
      && Run(m, before).frames != [] && Current(Run(m, before)) == outer
      && Run(m, evs).stack != [] && Top(Run(m, evs).stack) != []
      && var top := Top(Run(m, evs).stack);
         var filed := top[|top| - 1];
         && filed.account == inner && filed.depth == |m.frames| + 1 && |filed.storageAccesses| == 2
         && filed.storageAccesses[1] == AccessOf(Run(m, before), Sload(next))
  {
    var load, d := InnerLoad(caller, outer, inner, seen, slot), |m.frames|;
    AfterInnerLoad(m, caller, outer, inner, seen, slot);
    var r := Run(m, load);
    Extend(m, load, Exit(false));
    var t := Run(m, load + [Exit(false)]);
    assert t.stack == [r.stack[0] + r.stack[1]] && t.frames == r.frames[..d + 1];
    Extend(m, load + [Exit(false)], Sload(next));
  }
}
