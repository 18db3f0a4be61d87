/**
  The net diff against the EVM: what `getStateDiff` reports for a storage slot, compared with
  what really happened to that slot since recording began, rollbacks included.
 */
module NetDiff {
  import opened Layers
  import opened Recorder
  import opened RecorderRuns
  import opened RecorderLayout
  import opened RecorderTheorems

  /* ---------- Completed frames ---------- */

  /** `stack` is `below` with `h` non-empty vectors on top. */
  ghost predicate Above(below: Stack, stack: Stack, h: nat) {
    && |stack| == |below| + h
    && (forall p :: 0 <= p < |below| ==> stack[p] == below[p])
    && forall p :: |below| <= p < |stack| ==> stack[p] != []
  }

  lemma AboveStep(below: Stack, s: Machine, e: Event, h: nat)
    requires s.frames != [] && h >= 1 && Above(below, s.stack, h)
    requires e.Exit? ==> h >= 2 && |s.frames| >= 2
    ensures Above(below, Step(s, e).stack, if e.Enter? then h + 1 else if e.Exit? then h - 1 else h)
  {
  }

  /** Frame `a` is still open after the run. */
  ghost predicate StillOpen(d0: nat, evs: seq<Event>, a: nat)
    requires a < |evs|
  {
    evs[a].Enter? && forall j :: a < j <= |evs| ==> Depth(d0, evs, j) > Depth(d0, evs, a)
  }

  lemma StillOpenPrefix(d0: nat, evs: seq<Event>, a: nat)
    requires a < |evs| - 1 && ValidRun(d0, evs) && StillOpen(d0, evs, a)
    ensures
      var n := |evs| - 1;
      && StillOpen(d0, evs[..n], a)
      && Depth(d0, evs[..n], n) == Depth(d0, evs, n) && Depth(d0, evs[..n], a) == Depth(d0, evs, a)
      && Depth(d0, evs, n + 1) > Depth(d0, evs, a) >= 1
  {
    var n := |evs| - 1;
    forall j | 0 <= j <= n ensures Depth(d0, evs[..n], j) == Depth(d0, evs, j) { DepthPrefix(d0, evs, n, j); }
  }

  lemma {:induction false} OpenFrameKeepsBelow(m: Machine, evs: seq<Event>, a: nat)
    requires a < |evs| && ValidRun(|m.frames|, evs) && StillOpen(|m.frames|, evs, a)
    ensures Depth(|m.frames|, evs, |evs|) > Depth(|m.frames|, evs, a)
    ensures Above(At(m, evs, a).stack, Run(m, evs).stack, Depth(|m.frames|, evs, |evs|) - Depth(|m.frames|, evs, a))
  {
    var n, d0 := |evs| - 1, |m.frames|;
    if a < n {
      ValidPrefix(d0, evs, n);
      StillOpenPrefix(d0, evs, a);
      OpenFrameKeepsBelow(m, evs[..n], a);
      assert evs[..n][..a] == evs[..a];
      AboveStep(At(m, evs, a).stack, At(m, evs, n), evs[n], Depth(d0, evs, n) - Depth(d0, evs, a));
    }
  }

  lemma EndsOn(below: Stack, stack: Stack, depth: nat, reverted: bool)
    requires Above(below, stack, 1) && depth > 0
    ensures
      var merged := LastVector(stack, reverted);
      EndFrame(stack, depth, reverted) == if below == [] then [merged] else WithTop(below, Top(below) + merged)
  {
    assert stack[..|below|] == below;
  }

  /** A completed frame leaves the stack as it found it, except that its accesses are appended
      to the vector below, or become the base vector when there was none. */
  lemma CompletedFrame(m: Machine, evs: seq<Event>, a: nat) returns (merged: seq<AccountAccess>)
    requires a < |evs| - 1 && ValidRun(|m.frames|, evs)
    requires StillOpen(|m.frames|, evs[..|evs| - 1], a)
    requires evs[|evs| - 1].Exit? && Depth(|m.frames|, evs, |evs|) == Depth(|m.frames|, evs, a)
    ensures merged != []
    ensures
      var before := At(m, evs, a).stack;
      Run(m, evs).stack == if before == [] then [merged] else WithTop(before, Top(before) + merged)
    ensures Fresh(m) ==> Items(merged) == Concat(Entries(m, evs)[a..])
  {
    var n, d0 := |evs| - 1, |m.frames|;
    ValidPrefix(d0, evs, n);
    DepthPrefix(d0, evs, n, n);
    DepthPrefix(d0, evs, n, a);
    OpenFrameKeepsBelow(m, evs[..n], a);
    assert evs[..n][..a] == evs[..a];
    var s := At(m, evs, n);
    merged := LastVector(s.stack, evs[n].reverted);
    EndsOn(At(m, evs, a).stack, s.stack, |s.frames| - 1, evs[n].reverted);
    if Fresh(m) {
      InnermostOpen(d0, evs, a);
      CompletedContents(m, evs, a);
    }
  }

  /** The frame that is still open is the innermost one when its end comes next. */
  lemma InnermostOpen(d0: nat, evs: seq<Event>, a: nat)
    requires a < |evs| - 1 && StillOpen(d0, evs[..|evs| - 1], a) && evs[|evs| - 1].Exit?
    requires Depth(d0, evs, |evs|) == Depth(d0, evs, a)
    ensures RunningSince(evs[..|evs| - 1], a) && Depth(d0, evs, |evs| - 1) == Depth(d0, evs, a) + 1
  {
    var n := |evs| - 1;
    var pre, opens := evs[..n], OpensOf(evs[..n]);
    NestingHolds(d0, pre);
    LowestIsLeast(d0, pre, n);
    DepthPrefix(d0, evs, n, n);
    DepthPrefix(d0, evs, n, a);
    assert Lowest(d0, pre, n) <= Depth(d0, pre, a);
    var o := opens[|opens| - 1];
    assert OpenSince(d0, pre, o, Depth(d0, pre, n) - 1);
  }

  /** Entries from `a` on, flagged if undone, with nothing added by the exit. */
  lemma ReflaggedFrom(c: seq<seq<Item>>, c': seq<seq<Item>>, undone: bool, a: nat)
    requires a <= |c| && Reflagged(c, c', undone, a) && c'[|c|] == []
    ensures Concat(c'[a..]) == if undone then MarkItems(Concat(c[a..|c|])) else Concat(c[a..|c|])
  {
    var n := |c|;
    ConcatPushed(c'[a..n], c'[a..], []);
    assert Concat(c'[a..n]) + [] == Concat(c'[a..n]);
    if undone {
      FlaggedSlice(c, c'[..n], a);
      assert c'[..n][a..n] == c'[a..n];
      ConcatFlagged(c[a..n], c'[a..n]);
    } else {
      assert c'[a..n] == c[a..n];
    }
  }

  lemma ExitAddsNothing(m: Machine, evs: seq<Event>)
    requires evs != [] && ValidRun(|m.frames|, evs) && evs[|evs| - 1].Exit?
    ensures Entries(m, evs)[|evs| - 1] == []
  {
  }

  /** The running frame is the one event `a` opened. */
  ghost predicate RunningSince(evs: seq<Event>, a: nat) {
    var opens := OpensOf(evs);
    a < |evs| && opens != [] && opens[|opens| - 1] == a
  }

  /** The running frame's vector holds the entries since its opening. */
  lemma TopHolds(m: Machine, evs: seq<Event>, a: nat)
    requires Fresh(m) && ValidRun(|m.frames|, evs) && RunningSince(evs, a)
    ensures Run(m, evs).stack != [] && Items(Top(Run(m, evs).stack)) == Concat(Entries(m, evs)[a..|evs|])
  {
    InvHolds(m, evs);
    TopItems(Run(m, evs).stack, Entries(m, evs), OpensOf(evs));
  }

  lemma EntriesFrom(m: Machine, evs: seq<Event>, a: nat)
    requires evs != [] && ValidRun(|m.frames|, evs) && ValidRun(|m.frames|, evs[..|evs| - 1])
    requires evs[|evs| - 1].Exit? && Depth(|m.frames|, evs, |evs| - 1) > 1 && RunningSince(evs[..|evs| - 1], a)
    ensures
      var n := |evs| - 1;
      Reflagged(Entries(m, evs[..n]), Entries(m, evs), evs[n].reverted, a)
  {
    OpensCut(evs[..|evs| - 1]);
    OldEntries(m, evs);
  }

  /** What the running frame's vector holds once it is marked for its end. */
  lemma MarkedTop(stack: Stack, reverted: bool, c: seq<seq<Item>>, c': seq<seq<Item>>, a: nat)
    requires stack != [] && a <= |c| && Items(Top(stack)) == Concat(c[a..|c|])
    requires Reflagged(c, c', reverted, a) && c'[|c|] == []
    ensures Items(LastVector(stack, reverted)) == Concat(c'[a..])
  {
    LastItems(stack, reverted);
    ReflaggedFrom(c, c', reverted, a);
  }

  lemma CompletedContents(m: Machine, evs: seq<Event>, a: nat)
    requires Fresh(m) && evs != [] && ValidRun(|m.frames|, evs) && ValidRun(|m.frames|, evs[..|evs| - 1])
    requires evs[|evs| - 1].Exit? && Depth(|m.frames|, evs, |evs| - 1) > 1 && RunningSince(evs[..|evs| - 1], a)
    ensures At(m, evs, |evs| - 1).stack != []
    ensures Items(LastVector(At(m, evs, |evs| - 1).stack, evs[|evs| - 1].reverted)) == Concat(Entries(m, evs)[a..])
  {
    var n := |evs| - 1;
    TopHolds(m, evs[..n], a);
    EntriesFrom(m, evs, a);
    ExitAddsNothing(m, evs);
    MarkedTop(At(m, evs, n).stack, evs[n].reverted, Entries(m, evs[..n]), Entries(m, evs), a);
  }

  lemma TopItems(stack: Stack, c: seq<seq<Item>>, opens: seq<nat>)
    requires opens != [] && |opens| <= |stack| <= |opens| + 1 && Laid(Vectors(stack, |opens|), c, opens)
    ensures Items(Top(stack)) == Concat(c[opens[|opens| - 1]..|c|])
  {
    var k := |opens|;
    assert Full(stack, k)[k] == Top(stack);
    assert Vectors(stack, k)[k] == Stretch(c, opens, k);
  }

  /* ---------- Surviving writes of one slot, vector by vector ---------- */

  lemma {:induction false} StorageConcat(v: seq<AccountAccess>, w: seq<AccountAccess>)
    ensures StorageOf(v + w) == StorageOf(v) + StorageOf(w)
  {
    if w == [] {
      assert v + w == v;
    } else {
      assert (v + w)[..|v + w| - 1] == v + w[..|w| - 1];
      StorageConcat(v, w[..|w| - 1]);
    }
  }

  lemma {:induction false} SurvivingConcat(s: seq<StorageAccess>, t: seq<StorageAccess>, account: Address, slot: Slot)
    ensures SurvivingWrites(s + t, account, slot) == SurvivingWrites(s, account, slot) + SurvivingWrites(t, account, slot)
  {
    if t == [] {
      assert s + t == s;
    } else {
      assert (s + t)[..|s + t| - 1] == s + t[..|t| - 1];
      SurvivingConcat(s, t[..|t| - 1], account, slot);
    }
  }

  function Survivors(v: seq<AccountAccess>, account: Address, slot: Slot): seq<StorageAccess> {
    SurvivingWrites(StorageOf(v), account, slot)
  }

  lemma SurvivorsConcat(v: seq<AccountAccess>, w: seq<AccountAccess>, account: Address, slot: Slot)
    ensures Survivors(v + w, account, slot) == Survivors(v, account, slot) + Survivors(w, account, slot)
  {
    StorageConcat(v, w);
    SurvivingConcat(StorageOf(v), StorageOf(w), account, slot);
  }

  lemma {:induction false} NoneSurvive(s: seq<StorageAccess>, account: Address, slot: Slot)
    requires forall i :: 0 <= i < |s| ==> s[i].reverted
    ensures SurvivingWrites(s, account, slot) == []
  {
    if s != [] { NoneSurvive(s[..|s| - 1], account, slot); }
  }

  lemma {:induction false} SurvivorsMarked(v: seq<AccountAccess>, account: Address, slot: Slot)
    ensures Survivors(MarkVector(v), account, slot) == []
  {
    if v != [] {
      var n := |v| - 1;
      SurvivorsMarked(v[..n], account, slot);
      assert MarkVector(v)[..n] == MarkVector(v[..n]);
      NoneSurvive(MarkRecord(v[n]).storageAccesses, account, slot);
      SurvivingConcat(StorageOf(MarkVector(v)[..n]), MarkRecord(v[n]).storageAccesses, account, slot);
    }
  }

  lemma StorageLast(v: seq<AccountAccess>, w: seq<AccountAccess>, a: AccountAccess)
    requires Pushed(v, w, a)
    ensures StorageOf(w) == StorageOf(v) + a.storageAccesses
  {
    assert w[..|v|] == v;
  }

  lemma StorageAppended(v: seq<AccountAccess>, access: StorageAccess, depth: nat)
    requires v != [] && v[0].depth < depth
    ensures StorageOf(AppendStorageAccess(v, access, depth)) == StorageOf(v) + [access]
  {
    var r := AppendStorageAccess(v, access, depth);
    var n := |v| - 1;
    if |v| == 1 || v[n].kind == Resume {
      StorageLast(v[..n], v, v[n]);
      StorageLast(v[..n], r, FileIn(v[n], access));
    } else {
      StorageLast(v, r, ResumeOf(v[0], access));
    }
  }

  lemma SurvivorsAppended(v: seq<AccountAccess>, access: StorageAccess, depth: nat, account: Address, slot: Slot)
    requires v != [] && v[0].depth < depth
    ensures Survivors(AppendStorageAccess(v, access, depth), account, slot) ==
      Survivors(v, account, slot) + (if SurvivingWrite(access, account, slot) then [access] else [])
  {
    StorageAppended(v, access, depth);
    SurvivingConcat(StorageOf(v), [access], account, slot);
  }

  /* ---------- Rollback on one slot ---------- */

  /** Starting from `base`, the writes `w` lead to `now`. */
  predicate Leads(base: Word, w: seq<StorageAccess>, now: Word) {
    if w == [] then now == base else w[0].previousValue == base && w[|w| - 1].newValue == now
  }

  /** The surviving writes lead from `base` to the present value, and those below each open
      frame lead to the value that frame would roll back to. */
  ghost predicate Consistent(base: Word, g: seq<seq<StorageAccess>>, checkpoints: seq<Word>, now: Word) {
    && |g| == |checkpoints| + 1
    && Leads(base, Concat(g), now)
    && forall p :: 1 <= p <= |checkpoints| ==> Leads(base, Concat(g[..p]), checkpoints[p - 1])
  }

  lemma ConsistentEnter(base: Word, g: seq<seq<StorageAccess>>, g': seq<seq<StorageAccess>>,
                        checkpoints: seq<Word>, checkpoints': seq<Word>, now: Word)
    requires Consistent(base, g, checkpoints, now) && Pushed(g, g', []) && Pushed(checkpoints, checkpoints', now)
    ensures Consistent(base, g', checkpoints', now)
  {
    ConcatPushed(g, g', []);
    assert Concat(g) + [] == Concat(g);
    forall p | 1 <= p <= |checkpoints'| ensures Leads(base, Concat(g'[..p]), checkpoints'[p - 1]) {
      if p <= |checkpoints| { assert g'[..p] == g[..p]; } else { assert g'[..p] == g; }
    }
  }

  lemma LeadsOn(base: Word, w: seq<StorageAccess>, now: Word, now': Word, added: seq<StorageAccess>)
    requires Leads(base, w, now) && |added| <= 1
    requires if added == [] then now' == now else added[0].previousValue == now && added[0].newValue == now'
    ensures Leads(base, w + added, now')
  {
    if added == [] { assert w + added == w; }
  }

  /** The running frame adds at most one surviving write. */
  lemma ConsistentGrow(base: Word, g: seq<seq<StorageAccess>>, g': seq<seq<StorageAccess>>, checkpoints: seq<Word>,
                       now: Word, now': Word, added: seq<StorageAccess>)
    requires Consistent(base, g, checkpoints, now) && TopIs(g, g', g[|g| - 1] + added) && |added| <= 1
    requires if added == [] then now' == now else added[0].previousValue == now && added[0].newValue == now'
    ensures Consistent(base, g', checkpoints, now')
  {
    ConcatTop(g, g', added);
    LeadsOn(base, Concat(g), now, now', added);
    forall p | 1 <= p <= |checkpoints| ensures Leads(base, Concat(g'[..p]), checkpoints[p - 1]) {
      assert g'[..p] == g[..p];
    }
  }

  lemma ConsistentReturn(base: Word, g: seq<seq<StorageAccess>>, g': seq<seq<StorageAccess>>,
                         checkpoints: seq<Word>, checkpoints': seq<Word>, now: Word, was: Word)
    requires Consistent(base, g, checkpoints, now) && Pushed(checkpoints', checkpoints, was)
    requires Merged(g, g', g[|g| - 1])
    ensures Consistent(base, g', checkpoints', now)
  {
    ConcatMerged(g, g');
    forall p | 1 <= p <= |checkpoints'| ensures Leads(base, Concat(g'[..p]), checkpoints'[p - 1]) {
      assert g'[..p] == g[..p];
    }
  }

  lemma ConsistentRevert(base: Word, g: seq<seq<StorageAccess>>, g': seq<seq<StorageAccess>>,
                         checkpoints: seq<Word>, checkpoints': seq<Word>, now: Word, was: Word)
    requires Consistent(base, g, checkpoints, now) && Pushed(checkpoints', checkpoints, was) && Merged(g, g', [])
    ensures Consistent(base, g', checkpoints', was)
  {
    var k := |g'|;
    assert g[k - 1] + [] == g[k - 1];
    assert g' == g[..k];
    assert Leads(base, Concat(g[..k]), checkpoints[k - 1]);
    forall p | 1 <= p <= |checkpoints'| ensures Leads(base, Concat(g'[..p]), checkpoints'[p - 1]) {
      assert g'[..p] == g[..p];
    }
  }

  /* ---------- One slot of a machine ---------- */

  function SurvivorsOfEach(full: Stack, account: Address, slot: Slot): (r: seq<seq<StorageAccess>>)
    ensures |r| == |full|
  {
    seq(|full|, p requires 0 <= p < |full| => Survivors(full[p], account, slot))
  }

  lemma SurvivorsPushed(full: Stack, g: Stack, v: seq<AccountAccess>, account: Address, slot: Slot)
    requires Pushed(full, g, v)
    ensures Pushed(SurvivorsOfEach(full, account, slot), SurvivorsOfEach(g, account, slot), Survivors(v, account, slot))
  {
  }

  lemma SurvivorsTop(full: Stack, g: Stack, v: seq<AccountAccess>, account: Address, slot: Slot)
    requires TopIs(full, g, v)
    ensures TopIs(SurvivorsOfEach(full, account, slot), SurvivorsOfEach(g, account, slot), Survivors(v, account, slot))
  {
  }

  lemma SurvivorsMerged(full: Stack, g: Stack, last: seq<AccountAccess>, account: Address, slot: Slot)
    requires Merged(full, g, last)
    ensures Merged(SurvivorsOfEach(full, account, slot), SurvivorsOfEach(g, account, slot), Survivors(last, account, slot))
  {
    SurvivorsConcat(full[|g| - 1], last, account, slot);
  }

  lemma LastSurvivors(full: Stack, reverted: bool, account: Address, slot: Slot)
    requires full != []
    ensures Survivors(LastVector(full, reverted), account, slot) ==
      if reverted then [] else Survivors(full[|full| - 1], account, slot)
  {
    SurvivorsMarked(full[|full| - 1], account, slot);
  }

  /** The values the `n` innermost frames would roll the slot back to. */
  function Checkpoints(frames: seq<Frame>, n: nat, account: Address, slot: Slot): (r: seq<Word>)
    requires n <= |frames|
    ensures |r| == n
  {
    seq<Word>(n, p requires 0 <= p < n => Load(frames[|frames| - n + p].checkpoint, account, slot))
  }

  lemma CheckpointsPushed(frames: seq<Frame>, frames': seq<Frame>, f: Frame, n: nat, account: Address, slot: Slot)
    requires n <= |frames| && Pushed(frames, frames', f)
    ensures Pushed(Checkpoints(frames, n, account, slot), Checkpoints(frames', n + 1, account, slot),
                   Load(f.checkpoint, account, slot))
  {
  }

  /** The slot in full stack `full`, with a frame open per vector above the base. */
  ghost predicate SlotOk(full: Stack, frames: seq<Frame>, world: World, base: Word, account: Address, slot: Slot) {
    && 1 <= |full| <= |frames| + 1
    && Consistent(base, SurvivorsOfEach(full, account, slot), Checkpoints(frames, |full| - 1, account, slot),
                  Load(world, account, slot))
  }

  lemma SlotEnter(full: Stack, g: Stack, entry: AccountAccess, frames: seq<Frame>, frames': seq<Frame>, f: Frame,
                  base: Word, account: Address, slot: Slot)
    requires SlotOk(full, frames, f.checkpoint, base, account, slot)
    requires Pushed(full, g, [entry]) && Pushed(frames, frames', f) && entry.storageAccesses == []
    ensures SlotOk(g, frames', f.checkpoint, base, account, slot)
  {
    var n := |full| - 1;
    SurvivorsPushed(full, g, [entry], account, slot);
    NoSurvivors(entry, account, slot);
    CheckpointsPushed(frames, frames', f, n, account, slot);
    ConsistentEnter(base, SurvivorsOfEach(full, account, slot), SurvivorsOfEach(g, account, slot),
                    Checkpoints(frames, n, account, slot), Checkpoints(frames', n + 1, account, slot),
                    Load(f.checkpoint, account, slot));
  }

  lemma NoSurvivors(entry: AccountAccess, account: Address, slot: Slot)
    requires entry.storageAccesses == []
    ensures Survivors([entry], account, slot) == []
  {
    assert StorageOf([entry]) == StorageOf([]) + [];
  }

  lemma TopSurvivors(full: Stack, g: Stack, top: seq<AccountAccess>, added: seq<StorageAccess>, account: Address, slot: Slot)
    requires TopIs(full, g, top)
    requires Survivors(top, account, slot) == Survivors(full[|full| - 1], account, slot) + added
    ensures
      var h := SurvivorsOfEach(full, account, slot);
      TopIs(h, SurvivorsOfEach(g, account, slot), h[|h| - 1] + added)
  {
    SurvivorsTop(full, g, top, account, slot);
  }

  lemma TopConsistent(full: Stack, g: Stack, top: seq<AccountAccess>, added: seq<StorageAccess>, base: Word,
                      checkpoints: seq<Word>, now: Word, now': Word, account: Address, slot: Slot)
    requires Consistent(base, SurvivorsOfEach(full, account, slot), checkpoints, now)
    requires TopIs(full, g, top) && |added| <= 1
    requires Survivors(top, account, slot) == Survivors(full[|full| - 1], account, slot) + added
    requires if added == [] then now' == now else added[0].previousValue == now && added[0].newValue == now'
    ensures Consistent(base, SurvivorsOfEach(g, account, slot), checkpoints, now')
  {
    TopSurvivors(full, g, top, added, account, slot);
    ConsistentGrow(base, SurvivorsOfEach(full, account, slot), SurvivorsOfEach(g, account, slot), checkpoints, now, now', added);
  }

  lemma SlotTop(full: Stack, g: Stack, top: seq<AccountAccess>, added: seq<StorageAccess>, frames: seq<Frame>,
                world: World, world': World, base: Word, account: Address, slot: Slot)
    requires SlotOk(full, frames, world, base, account, slot) && TopIs(full, g, top) && |added| <= 1
    requires Survivors(top, account, slot) == Survivors(full[|full| - 1], account, slot) + added
    requires
      var now, now' := Load(world, account, slot), Load(world', account, slot);
      if added == [] then now' == now else added[0].previousValue == now && added[0].newValue == now'
    ensures SlotOk(g, frames, world', base, account, slot)
  {
    TopConsistent(full, g, top, added, base, Checkpoints(frames, |full| - 1, account, slot),
                  Load(world, account, slot), Load(world', account, slot), account, slot);
  }

  lemma SlotLeave(full: Stack, g: Stack, reverted: bool, frames: seq<Frame>, frames': seq<Frame>, f: Frame,
                  world: World, base: Word, account: Address, slot: Slot)
    requires SlotOk(full, frames, world, base, account, slot) && |full| >= 2
    requires Merged(full, g, LastVector(full, reverted)) && Pushed(frames', frames, f)
    ensures SlotOk(g, frames', if reverted then f.checkpoint else world, base, account, slot)
  {
    var n := |full| - 1;
    var was := Load(f.checkpoint, account, slot);
    var h, h' := SurvivorsOfEach(full, account, slot), SurvivorsOfEach(g, account, slot);
    var cps, cps' := Checkpoints(frames, n, account, slot), Checkpoints(frames', n - 1, account, slot);
    SurvivorsMerged(full, g, LastVector(full, reverted), account, slot);
    LastSurvivors(full, reverted, account, slot);
    CheckpointsPushed(frames', frames, f, n - 1, account, slot);
    if reverted {
      ConsistentRevert(base, h, h', cps, cps', Load(world, account, slot), was);
    } else {
      ConsistentReturn(base, h, h', cps, cps', Load(world, account, slot), was);
    }
  }

  lemma SlotPercolate(full: Stack, g: Stack, reverted: bool, frames: seq<Frame>, frames': seq<Frame>,
                      world: World, world': World, base: Word, account: Address, slot: Slot)
    requires SlotOk(full, frames, world, base, account, slot) && |full| == 1
    requires TopIs(full, g, LastVector(full, reverted)) && (!reverted ==> world' == world)
    ensures SlotOk(g, frames', world', if reverted then Load(world', account, slot) else base, account, slot)
  {
    SurvivorsTop(full, g, LastVector(full, reverted), account, slot);
    LastSurvivors(full, reverted, account, slot);
    var h, h' := SurvivorsOfEach(full, account, slot), SurvivorsOfEach(g, account, slot);
    if reverted {
      ConcatPushed([], h', []);
      assert Concat(h') == [];
    } else {
      assert h' == h;
    }
  }

  /** `n` frames have been opened since recording began. */
  ghost predicate SlotInv(s: Machine, n: nat, base: Word, account: Address, slot: Slot) {
    && n <= |s.stack| <= n + 1
    && SlotOk(Full(s.stack, n), s.frames, s.world, base, account, slot)
  }

  predicate Writes(s: Machine, e: Event, account: Address, slot: Slot)
    requires s.frames != []
  {
    e.Sstore? && Current(s) == account && e.slot == slot
  }

  /** The surviving write an event leaves, with `n` frames opened since recording began. */
  function WriteOf(s: Machine, e: Event, n: nat, account: Address, slot: Slot): (r: seq<StorageAccess>)
    requires s.frames != []
    ensures |r| <= 1
  {
    if n > 0 && Writes(s, e, account, slot) then [AccessOf(s, e)] else []
  }

  lemma NewTopSurvivors(s: Machine, e: Event, n: nat, v: seq<AccountAccess>, account: Address, slot: Slot)
    requires s.frames != [] && !e.Enter? && !e.Exit?
    requires n > 0 ==> v != [] && v[0].depth < |s.frames|
    ensures Survivors(NewTop(s, e, n, v), account, slot) == Survivors(v, account, slot) + WriteOf(s, e, n, account, slot)
  {
    match e
    case Ext(kind, a) => OneMore(v, AccountAccess(kind, Current(s), a, |s.frames|, false, []), account, slot);
    case Destroy(a) => OneMore(v, AccountAccess(SelfDestruct, Current(s), a, |s.frames|, false, []), account, slot);
    case Sload(_) => if n > 0 { SurvivorsAppended(v, AccessOf(s, e), |s.frames|, account, slot); }
    case Sstore(_, _) => if n > 0 { SurvivorsAppended(v, AccessOf(s, e), |s.frames|, account, slot); }
    case Cheat =>
  }

  lemma OneMore(v: seq<AccountAccess>, a: AccountAccess, account: Address, slot: Slot)
    requires a.storageAccesses == []
    ensures Survivors(v + [a], account, slot) == Survivors(v, account, slot)
  {
    NoSurvivors(a, account, slot);
    SurvivorsConcat(v, [a], account, slot);
  }

  function OpenAfter(n: nat, e: Event): nat {
    if e.Enter? then n + 1 else if e.Exit? && n > 0 then n - 1 else n
  }

  /** Neither an enter nor an exit. Writes to the slot must come from a frame opened since
      recording began. */
  lemma SlotOther(s: Machine, e: Event, n: nat, base: Word, account: Address, slot: Slot)
    requires s.frames != [] && !e.Enter? && !e.Exit? && SlotInv(s, n, base, account, slot)
    requires Shape(s.stack, n, |s.frames| - n) && (Writes(s, e, account, slot) ==> n > 0)
    ensures SlotInv(Step(s, e), n, base, account, slot)
  {
    var t, v := Step(s, e), Full(s.stack, n)[n];
    FullTop(s, e, n, |s.frames| - n);
    if n > 0 { TopDepth(s.stack, n, |s.frames| - n); }
    NewTopSurvivors(s, e, n, v, account, slot);
    SlotTop(Full(s.stack, n), Full(t.stack, n), NewTop(s, e, n, v), WriteOf(s, e, n, account, slot), s.frames,
            s.world, t.world, base, account, slot);
  }

  /** `t` follows from `s` by ending a frame opened since recording began. */
  ghost predicate Left(s: Machine, t: Machine, reverted: bool, n: nat)
    requires 0 < n <= |s.stack| <= n + 1 && s.frames != []
  {
    var f := s.frames[|s.frames| - 1];
    && Pushed(t.frames, s.frames, f) && t.world == (if reverted then f.checkpoint else s.world)
    && n - 1 <= |t.stack| <= n
    && Merged(Full(s.stack, n), Full(t.stack, n - 1), LastVector(Full(s.stack, n), reverted))
  }

  lemma LeaveStack(s: Machine, e: Event, n: nat)
    requires e.Exit? && 0 < n < |s.frames| && Shape(s.stack, n, |s.frames| - n)
    ensures Left(s, Step(s, e), e.reverted, n)
  {
    FullLeave(s.stack, n, |s.frames| - n, e.reverted, |s.frames| - 1);
  }

  lemma SlotInner(s: Machine, t: Machine, reverted: bool, n: nat, base: Word, account: Address, slot: Slot)
    requires 0 < n <= |s.stack| <= n + 1 && s.frames != []
    requires SlotInv(s, n, base, account, slot) && Left(s, t, reverted, n)
    ensures SlotInv(t, n - 1, base, account, slot)
  {
    SlotLeave(Full(s.stack, n), Full(t.stack, n - 1), reverted, s.frames, t.frames, s.frames[|s.frames| - 1],
              s.world, base, account, slot);
  }

  /** A frame opened before recording began ends. */
  lemma SlotOuter(s: Machine, e: Event, base: Word, account: Address, slot: Slot)
    requires |s.frames| > 1 && e.Exit? && SlotInv(s, 0, base, account, slot) && Shape(s.stack, 0, |s.frames|)
    ensures SlotInv(Step(s, e), 0, if e.reverted then Load(s.frames[|s.frames| - 1].checkpoint, account, slot) else base,
                    account, slot)
  {
    var depth := |s.frames| - 1;
    FullPercolate(s.stack, |s.frames|, e.reverted, depth);
    SlotPercolate(Full(s.stack, 0), Full(EndFrame(s.stack, depth, e.reverted), 0), e.reverted,
                  s.frames, s.frames[..depth], s.world, Step(s, e).world, base, account, slot);
  }

  lemma SlotStep(s: Machine, e: Event, n: nat, base: Word, account: Address, slot: Slot)
    requires s.frames != [] && SlotInv(s, n, base, account, slot) && n < |s.frames| && Shape(s.stack, n, |s.frames| - n)
    requires Writes(s, e, account, slot) ==> n > 0
    requires e == Exit(true) ==> |s.frames| > 1
    ensures SlotInv(Step(s, e), OpenAfter(n, e),
                    if e == Exit(true) && n == 0 then Load(s.frames[|s.frames| - 1].checkpoint, account, slot) else base,
                    account, slot)
  {
    if e.Enter? {
      var entry := AccountAccess(e.kind, e.accessor, e.account, |s.frames|, false, []);
      FullEnter(s.stack, n, |s.frames| - n, entry);
      SlotEnter(Full(s.stack, n), Full(PushFrame(s.stack, entry), n + 1), entry, s.frames,
                s.frames + [Frame(e.target, s.world)], Frame(e.target, s.world), base, account, slot);
    } else if !e.Exit? {
      SlotOther(s, e, n, base, account, slot);
    } else if n > 0 {
      LeaveStack(s, e, n);
      SlotInner(s, Step(s, e), e.reverted, n, base, account, slot);
    } else if |s.frames| > 1 {
      SlotOuter(s, e, base, account, slot);
    }
  }

  /* ---------- One slot over every run ---------- */

  /** The value the slot starts from: the one at the start of recording, or the one restored
      by the last revert of a frame that was open before recording began. */
  ghost function BaseValue(m: Machine, evs: seq<Event>, account: Address, slot: Slot): Word
    requires ValidRun(|m.frames|, evs)
  {
    if evs == [] then Load(m.world, account, slot)
    else
      var n, d0 := |evs| - 1, |m.frames|;
      ValidPrefix(d0, evs, n);
      if evs[n] == Exit(true) && !Opened(d0, evs, n) then
        assert Depth(d0, evs, n) <= Depth(d0, evs, 0);
        Load(m.frames[Depth(d0, evs, n) - 1].checkpoint, account, slot)
      else
        BaseValue(m, evs[..n], account, slot)
  }

  /** Every write to the slot is made by a frame opened since recording began. */
  ghost predicate WritesRecorded(m: Machine, evs: seq<Event>, account: Address, slot: Slot)
    requires ValidRun(|m.frames|, evs)
  {
    forall i :: 0 <= i < |evs| ==> Writes(At(m, evs, i), evs[i], account, slot) ==> Opened(|m.frames|, evs, i)
  }

  ghost predicate RootStands(d0: nat, evs: seq<Event>) {
    forall i :: 0 <= i < |evs| && evs[i] == Exit(true) ==> Depth(d0, evs, i) > 1
  }

  lemma AtPrefix(m: Machine, evs: seq<Event>, n: nat, i: nat)
    requires i < n <= |evs| && ValidRun(|m.frames|, evs) && ValidRun(|m.frames|, evs[..n])
    ensures At(m, evs[..n], i) == At(m, evs, i)
    ensures Opened(|m.frames|, evs[..n], i) == Opened(|m.frames|, evs, i)
  {
    assert evs[..n][..i] == evs[..i];
    forall j | 0 <= j <= i ensures Depth(|m.frames|, evs[..n], j) == Depth(|m.frames|, evs, j) {
      DepthPrefix(|m.frames|, evs, n, j);
    }
  }

  lemma HypothesesPrefix(m: Machine, evs: seq<Event>, account: Address, slot: Slot)
    requires evs != [] && ValidRun(|m.frames|, evs) && ValidRun(|m.frames|, evs[..|evs| - 1])
    requires WritesRecorded(m, evs, account, slot) && RootStands(|m.frames|, evs)
    ensures WritesRecorded(m, evs[..|evs| - 1], account, slot) && RootStands(|m.frames|, evs[..|evs| - 1])
  {
    var n := |evs| - 1;
    forall i | 0 <= i < n && Writes(At(m, evs[..n], i), evs[..n][i], account, slot)
      ensures Opened(|m.frames|, evs[..n], i)
    {
      AtPrefix(m, evs, n, i);
    }
    forall i | 0 <= i < n && evs[..n][i] == Exit(true) ensures Depth(|m.frames|, evs[..n], i) > 1 {
      DepthPrefix(|m.frames|, evs, n, i);
    }
  }

  /** Frames that were open before recording began keep their checkpoints. */
  predicate KeepsOld(m: Machine, s: Machine, n: nat) {
    && n <= |s.frames| && |s.frames| - n <= |m.frames|
    && forall p :: 0 <= p < |s.frames| - n ==> s.frames[p] == m.frames[p]
  }

  lemma OldKept(m: Machine, s: Machine, e: Event, n: nat)
    requires s.frames != [] && KeepsOld(m, s, n) && n < |s.frames|
    ensures KeepsOld(m, Step(s, e), OpenAfter(n, e))
  {
  }

  lemma {:induction false} OldKeptHolds(m: Machine, evs: seq<Event>)
    requires ValidRun(|m.frames|, evs)
    ensures KeepsOld(m, Run(m, evs), |OpensOf(evs)|)
  {
    if evs != [] {
      var n := |evs| - 1;
      ValidPrefix(|m.frames|, evs, n);
      OldKeptHolds(m, evs[..n]);
      OpensBelow(|m.frames|, evs);
      DepthPrefix(|m.frames|, evs, n, n);
      OldKept(m, At(m, evs, n), evs[n], |OpensOf(evs[..n])|);
    }
  }

  lemma SlotStart(m: Machine, account: Address, slot: Slot)
    requires Fresh(m)
    ensures SlotInv(m, 0, Load(m.world, account, slot), account, slot)
  {
    assert Survivors([], account, slot) == [];
    ConcatPushed([], SurvivorsOfEach(Full(m.stack, 0), account, slot), []);
  }

  /** Some frame open before recording began is still open as long as any frame is. */
  lemma OpensBelow(d0: nat, evs: seq<Event>)
    requires evs != [] && ValidRun(d0, evs)
    ensures |OpensOf(evs[..|evs| - 1])| < Depth(d0, evs, |evs| - 1)
  {
    var n := |evs| - 1;
    NestingHolds(d0, evs[..n]);
    DepthPrefix(d0, evs, n, n);
    LowestPrefix(d0, evs, n, n);
    LowestIsLeast(d0, evs, n);
  }

  /** The state before the last event, as far as ending a frame is concerned. */
  lemma BeforeLast(m: Machine, evs: seq<Event>)
    requires Fresh(m) && evs != [] && ValidRun(|m.frames|, evs)
    ensures
      var s, k := At(m, evs, |evs| - 1), |OpensOf(evs[..|evs| - 1])|;
      && |s.frames| == Depth(|m.frames|, evs, |evs| - 1) && k < |s.frames|
      && Shape(s.stack, k, |s.frames| - k)
      && (k == 0 ==> |s.frames| <= |m.frames| && s.frames[|s.frames| - 1] == m.frames[|s.frames| - 1])
  {
    var n := |evs| - 1;
    ValidPrefix(|m.frames|, evs, n);
    DepthPrefix(|m.frames|, evs, n, n);
    InvHolds(m, evs[..n]);
    OpensBelow(|m.frames|, evs);
    OldKeptHolds(m, evs[..n]);
  }

  lemma SlotNext(m: Machine, evs: seq<Event>, account: Address, slot: Slot)
    requires Fresh(m) && evs != [] && ValidRun(|m.frames|, evs) && ValidRun(|m.frames|, evs[..|evs| - 1])
    requires Writes(At(m, evs, |evs| - 1), evs[|evs| - 1], account, slot) ==> Opened(|m.frames|, evs, |evs| - 1)
    requires evs[|evs| - 1] == Exit(true) ==> Depth(|m.frames|, evs, |evs| - 1) > 1
    requires SlotInv(At(m, evs, |evs| - 1), |OpensOf(evs[..|evs| - 1])|, BaseValue(m, evs[..|evs| - 1], account, slot),
                     account, slot)
    ensures SlotInv(Run(m, evs), |OpensOf(evs)|, BaseValue(m, evs, account, slot), account, slot)
  {
    var n := |evs| - 1;
    BeforeLast(m, evs);
    OpenedIffOpens(|m.frames|, evs);
    SlotStep(At(m, evs, n), evs[n], |OpensOf(evs[..n])|, BaseValue(m, evs[..n], account, slot), account, slot);
  }

  lemma {:induction false} SlotHolds(m: Machine, evs: seq<Event>, account: Address, slot: Slot)
    requires Fresh(m) && ValidRun(|m.frames|, evs)
    requires WritesRecorded(m, evs, account, slot) && RootStands(|m.frames|, evs)
    ensures SlotInv(Run(m, evs), |OpensOf(evs)|, BaseValue(m, evs, account, slot), account, slot)
  {
    if evs == [] {
      SlotStart(m, account, slot);
    } else {
      var n := |evs| - 1;
      ValidPrefix(|m.frames|, evs, n);
      HypothesesPrefix(m, evs, account, slot);
      SlotHolds(m, evs[..n], account, slot);
      SlotNext(m, evs, account, slot);
    }
  }

  lemma {:induction false} SurvivorsFlattened(full: Stack, account: Address, slot: Slot)
    ensures Concat(SurvivorsOfEach(full, account, slot)) == Survivors(Flatten(full), account, slot)
  {
    if full != [] {
      var n := |full| - 1;
      SurvivorsFlattened(full[..n], account, slot);
      assert SurvivorsOfEach(full, account, slot)[..n] == SurvivorsOfEach(full[..n], account, slot);
      SurvivorsConcat(Flatten(full[..n]), full[n], account, slot);
    }
  }

  /* ---------- Surviving writes and the chronicle ---------- */

  lemma {:induction false} StorageInItems(v: seq<AccountAccess>, a: StorageAccess)
    ensures a in StorageOf(v) <==> OnStorage(a) in Items(v)
  {
    if v != [] {
      var n := |v| - 1;
      StorageInItems(v[..n], a);
      assert a in v[n].storageAccesses <==> OnStorage(a) in RecordItems(v[n]) by {
        if a in v[n].storageAccesses {
          var k :| 0 <= k < |v[n].storageAccesses| && v[n].storageAccesses[k] == a;
          assert StorageItems(v[n].storageAccesses)[k] == OnStorage(a);
        }
      }
    }
  }

  lemma {:induction false} InConcat(c: seq<seq<Item>>, x: Item)
    ensures x in Concat(c) <==> exists i :: 0 <= i < |c| && x in c[i]
  {
    if c != [] {
      var n := |c| - 1;
      InConcat(c[..n], x);
      if i :| 0 <= i < n && x in c[..n][i] { assert x in c[i]; }
      if i :| 0 <= i < |c| && x in c[i] && i < n { assert x in c[..n][i]; }
    }
  }

  /** Event `i` wrote the slot in a recorded frame and was not rolled back. */
  ghost predicate SurvivingEvent(m: Machine, evs: seq<Event>, i: nat, account: Address, slot: Slot)
    requires i < |evs| && ValidRun(|m.frames|, evs)
  {
    && Writes(At(m, evs, i), evs[i], account, slot)
    && Opened(|m.frames|, evs, i) && !RolledBack(|m.frames|, evs, i)
  }

  /** A storage access is recorded exactly when some event of the run left it. */
  lemma RecordedByEvent(m: Machine, evs: seq<Event>, a: StorageAccess)
    requires Fresh(m) && ValidRun(|m.frames|, evs)
    ensures a in StorageOf(Flatten(Run(m, evs).stack)) <==> exists i :: 0 <= i < |evs| && OnStorage(a) in Entry(m, evs, i)
  {
    RecordsTheChronicle(m, evs);
    StorageInItems(Flatten(Run(m, evs).stack), a);
    InEntries(m, evs, a);
  }

  lemma InEntries(m: Machine, evs: seq<Event>, a: StorageAccess)
    requires ValidRun(|m.frames|, evs)
    ensures OnStorage(a) in Chronicle(m, evs) <==> exists i :: 0 <= i < |evs| && OnStorage(a) in Entry(m, evs, i)
  {
    var c := Entries(m, evs);
    InConcat(c, OnStorage(a));
    if i :| 0 <= i < |c| && OnStorage(a) in c[i] { assert OnStorage(a) in Entry(m, evs, i); }
    if i :| 0 <= i < |evs| && OnStorage(a) in Entry(m, evs, i) { assert OnStorage(a) in c[i]; }
  }

  /** Event `i` touches storage in a frame opened since recording began, and leaves `a`, flagged
      exactly when the event was rolled back. */
  ghost predicate Leaves(m: Machine, evs: seq<Event>, i: nat, a: StorageAccess)
    requires i < |evs| && ValidRun(|m.frames|, evs)
  {
    && TouchesStorage(evs[i]) && Opened(|m.frames|, evs, i)
    && a == AccessOf(At(m, evs, i), evs[i]).(reverted := RolledBack(|m.frames|, evs, i))
  }

  /** What is recorded is true: it names the account and slot touched, the value before, and the
      value after, which for a store is the value stored and for a load the value found. */
  lemma RecordedTruth(m: Machine, evs: seq<Event>, i: nat, a: StorageAccess)
    requires i < |evs| && ValidRun(|m.frames|, evs) && Leaves(m, evs, i, a)
    ensures
      var s := At(m, evs, i);
      && a.account == s.frames[|s.frames| - 1].target && a.slot == evs[i].slot
      && (a.isWrite <==> evs[i].Sstore?)
      && a.previousValue == Load(s.world, a.account, a.slot)
      && a.newValue == Load(Step(s, evs[i]).world, a.account, a.slot)
      && (evs[i].Sstore? ==> a.newValue == evs[i].value)
  {
  }

  lemma EntryLeaves(m: Machine, evs: seq<Event>, i: nat, a: StorageAccess)
    requires i < |evs| && ValidRun(|m.frames|, evs)
    ensures OnStorage(a) in Entry(m, evs, i) <==> Leaves(m, evs, i, a)
  {
  }

  /** Revert marking: the recorded storage accesses are those of the events that touch storage in
      recorded frames, each flagged exactly when some frame around it other than the root, at any
      depth and opened before or after recording began, has ended by revert. */
  lemma RevertMarking(m: Machine, evs: seq<Event>, a: StorageAccess)
    requires Fresh(m) && ValidRun(|m.frames|, evs)
    ensures a in StorageOf(Flatten(Run(m, evs).stack)) <==> exists i :: 0 <= i < |evs| && Leaves(m, evs, i, a)
  {
    RecordedByEvent(m, evs, a);
    if i :| 0 <= i < |evs| && OnStorage(a) in Entry(m, evs, i) { EntryLeaves(m, evs, i, a); }
    if i :| 0 <= i < |evs| && Leaves(m, evs, i, a) { EntryLeaves(m, evs, i, a); }
  }

  /** The surviving writes to one slot among some items, in order. */
  function WritesIn(items: seq<Item>, account: Address, slot: Slot): seq<StorageAccess> {
    if items == [] then []
    else
      var n := |items| - 1;
      WritesIn(items[..n], account, slot) +
      (if items[n].OnStorage? && SurvivingWrite(items[n].access, account, slot) then [items[n].access] else [])
  }

  lemma {:induction false} WritesInConcat(s: seq<Item>, t: seq<Item>, account: Address, slot: Slot)
    ensures WritesIn(s + t, account, slot) == WritesIn(s, account, slot) + WritesIn(t, account, slot)
  {
    if t == [] {
      assert s + t == s;
    } else {
      assert (s + t)[..|s + t| - 1] == s + t[..|t| - 1];
      WritesInConcat(s, t[..|t| - 1], account, slot);
    }
  }

  lemma {:induction false} WritesInStorage(s: seq<StorageAccess>, account: Address, slot: Slot)
    ensures WritesIn(StorageItems(s), account, slot) == SurvivingWrites(s, account, slot)
  {
    if s != [] {
      WritesInStorage(s[..|s| - 1], account, slot);
      assert StorageItems(s)[..|s| - 1] == StorageItems(s[..|s| - 1]);
    }
  }

  lemma WritesInRecord(a: AccountAccess, account: Address, slot: Slot)
    ensures WritesIn(RecordItems(a), account, slot) == SurvivingWrites(a.storageAccesses, account, slot)
  {
    var own := if a.kind == Resume then [] else [OnAccount(a.kind, a.accessor, a.account, a.depth, a.reverted)];
    assert own != [] ==> own[..0] == [] && WritesIn(own, account, slot) == WritesIn(own[..0], account, slot) + [];
    WritesInConcat(own, StorageItems(a.storageAccesses), account, slot);
    WritesInStorage(a.storageAccesses, account, slot);
  }

  lemma {:induction false} WritesInItems(v: seq<AccountAccess>, account: Address, slot: Slot)
    ensures WritesIn(Items(v), account, slot) == Survivors(v, account, slot)
  {
    if v != [] {
      var n := |v| - 1;
      WritesInItems(v[..n], account, slot);
      WritesInConcat(Items(v[..n]), RecordItems(v[n]), account, slot);
      WritesInRecord(v[n], account, slot);
      SurvivingConcat(StorageOf(v[..n]), v[n].storageAccesses, account, slot);
    }
  }

  /** What each event leaves of the slot: the write it made, or nothing. */
  ghost function SurvivingAccesses(m: Machine, evs: seq<Event>, account: Address, slot: Slot): (r: seq<seq<StorageAccess>>)
    requires ValidRun(|m.frames|, evs)
    ensures |r| == |evs|
  {
    seq(|evs|, i requires 0 <= i < |evs| =>
      if SurvivingEvent(m, evs, i, account, slot) then [AccessOf(At(m, evs, i), evs[i])] else [])
  }

  lemma WritesInEntry(m: Machine, evs: seq<Event>, i: nat, account: Address, slot: Slot)
    requires i < |evs| && ValidRun(|m.frames|, evs)
    ensures WritesIn(Entry(m, evs, i), account, slot) == SurvivingAccesses(m, evs, account, slot)[i]
  {
    var entry := Entry(m, evs, i);
    if entry != [] { assert entry[..0] == [] && WritesIn([], account, slot) == []; }
  }

  lemma {:induction false} WritesInAll(c: seq<seq<Item>>, w: seq<seq<StorageAccess>>, account: Address, slot: Slot)
    requires |w| == |c| && forall i :: 0 <= i < |c| ==> WritesIn(c[i], account, slot) == w[i]
    ensures WritesIn(Concat(c), account, slot) == Concat(w)
  {
    if c != [] {
      var n := |c| - 1;
      WritesInAll(c[..n], w[..n], account, slot);
      WritesInConcat(Concat(c[..n]), c[n], account, slot);
    }
  }

  lemma {:induction false} SomeIn<T>(c: seq<seq<T>>)
    ensures Concat(c) != [] <==> exists i :: 0 <= i < |c| && c[i] != []
  {
    if c != [] {
      var n := |c| - 1;
      SomeIn(c[..n]);
      if i :| 0 <= i < n && c[..n][i] != [] { assert c[i] != []; }
      if i :| 0 <= i < |c| && c[i] != [] { assert i < n ==> c[..n][i] != []; }
    }
  }

  /** The surviving recorded writes to a slot are, in order, the writes of the events in recorded
      frames that were not rolled back. */
  lemma SurvivorsAreEvents(m: Machine, evs: seq<Event>, account: Address, slot: Slot)
    requires Fresh(m) && ValidRun(|m.frames|, evs)
    ensures Survivors(Flatten(Run(m, evs).stack), account, slot) == Concat(SurvivingAccesses(m, evs, account, slot))
    ensures Survivors(Flatten(Run(m, evs).stack), account, slot) != [] <==>
      exists i :: 0 <= i < |evs| && SurvivingEvent(m, evs, i, account, slot)
  {
    var c, w := Entries(m, evs), SurvivingAccesses(m, evs, account, slot);
    RecordsTheChronicle(m, evs);
    WritesInItems(Flatten(Run(m, evs).stack), account, slot);
    forall i | 0 <= i < |c| ensures WritesIn(c[i], account, slot) == w[i] { WritesInEntry(m, evs, i, account, slot); }
    WritesInAll(c, w, account, slot);
    SomeIn(w);
    if i :| 0 <= i < |evs| && SurvivingEvent(m, evs, i, account, slot) { assert w[i] != []; }
  }

  lemma SlotLeads(s: Machine, n: nat, base: Word, account: Address, slot: Slot)
    requires SlotInv(s, n, base, account, slot)
    ensures Leads(base, Survivors(Flatten(s.stack), account, slot), Load(s.world, account, slot))
  {
    SurvivorsFlattened(Full(s.stack, n), account, slot);
    FlattenUnder(s.stack);
  }

  /** Main result on one slot, whose writes were all made by frames opened since recording
      began, as long as the root frame has not reverted. It is listed exactly when a write to it
      survives; if listed its new value is the present one; and the report as a whole is right
      about the slot exactly when the value it now starts from is the one it had when recording
      began: the last frame older than the recording to be rolled back, if any, was rolled back
      to that value. */
  lemma SlotDiffIsRight(m: Machine, evs: seq<Event>, account: Address, slot: Slot)
    requires Fresh(m) && ValidRun(|m.frames|, evs)
    requires WritesRecorded(m, evs, account, slot) && RootStands(|m.frames|, evs)
    ensures
      var diffs := NetDiffs(StorageOf(Flatten(Run(m, evs).stack)));
      var was, now := Load(m.world, account, slot), Load(Run(m, evs).world, account, slot);
      && (Listed(diffs, account, slot) <==> exists i :: 0 <= i < |evs| && SurvivingEvent(m, evs, i, account, slot))
      && (Listed(diffs, account, slot) ==> Lookup(diffs, account, slot).newValue == now)
      && ((if Listed(diffs, account, slot) then Lookup(diffs, account, slot).previousValue == was else now == was)
          <==> BaseValue(m, evs, account, slot) == was)
  {
    var s := Run(m, evs);
    SlotHolds(m, evs, account, slot);
    SlotLeads(s, |OpensOf(evs)|, BaseValue(m, evs, account, slot), account, slot);
    NetDiffsAreNet(StorageOf(Flatten(s.stack)), account, slot);
    SurvivorsAreEvents(m, evs, account, slot);
  }

  /** The other case is reached: the frame that started recording reverts, which undoes what it
      did before that. The report lists nothing although the slot has changed since. */
  lemma OlderRevertMissed(m: Machine, account: Address, slot: Slot)
    requires Fresh(m) && |m.frames| > 1
    requires Load(m.frames[|m.frames| - 1].checkpoint, account, slot) != Load(m.world, account, slot)
    ensures
      var evs := [Exit(true)];
      && ValidRun(|m.frames|, evs) && WritesRecorded(m, evs, account, slot) && RootStands(|m.frames|, evs)
      && BaseValue(m, evs, account, slot) != Load(m.world, account, slot)
      && !Listed(NetDiffs(StorageOf(Flatten(Run(m, evs).stack))), account, slot)
      && Load(Run(m, evs).world, account, slot) != Load(m.world, account, slot)
  {
    var evs := [Exit(true)];
    assert Depth(|m.frames|, evs, 0) == |m.frames|;
    assert evs[..0] == [] && Run(m, []) == m;
    assert !Opened(|m.frames|, evs, 0);
  }

  /** No frame that was open before recording began has reverted. */
  ghost predicate OldFramesStand(d0: nat, evs: seq<Event>) {
    forall i :: 0 <= i < |evs| && evs[i] == Exit(true) ==> Opened(d0, evs, i)
  }

  lemma {:induction false} BaseIsStart(m: Machine, evs: seq<Event>, account: Address, slot: Slot)
    requires ValidRun(|m.frames|, evs) && OldFramesStand(|m.frames|, evs)
    ensures BaseValue(m, evs, account, slot) == Load(m.world, account, slot)
    ensures RootStands(|m.frames|, evs)
  {
    var d0 := |m.frames|;
    if evs != [] {
      var n := |evs| - 1;
      ValidPrefix(d0, evs, n);
      forall i | 0 <= i < n && evs[..n][i] == Exit(true) ensures Opened(d0, evs[..n], i) { AtPrefix(m, evs, n, i); }
      BaseIsStart(m, evs[..n], account, slot);
    }
  }

  /** The recorder agrees with the EVM: while the frame that started recording is live, or has
      returned normally, every slot written only by recorded frames is listed exactly when a
      write survives, from its value when recording began to its value now, and is otherwise
      unchanged. */
  lemma RecorderAgreesWithEvm(m: Machine, evs: seq<Event>, account: Address, slot: Slot)
    requires Fresh(m) && ValidRun(|m.frames|, evs)
    requires WritesRecorded(m, evs, account, slot) && OldFramesStand(|m.frames|, evs)
    ensures
      var diffs := NetDiffs(StorageOf(Flatten(Run(m, evs).stack)));
      var was, now := Load(m.world, account, slot), Load(Run(m, evs).world, account, slot);
      && (Listed(diffs, account, slot) <==> exists i :: 0 <= i < |evs| && SurvivingEvent(m, evs, i, account, slot))
      && (if Listed(diffs, account, slot) then Lookup(diffs, account, slot) == SlotDiff(was, now) else now == was)
  {
    BaseIsStart(m, evs, account, slot);
    SlotDiffIsRight(m, evs, account, slot);
  }

  /** The frame that started recording is itself not recorded: a write it makes leaves no trace. */
  lemma OwnWritesAreMissed(m: Machine, slot: Slot, value: Word)
    requires Fresh(m) && Load(m.world, Current(m), slot) != value
    ensures
      var evs := [Sstore(slot, value)];
      && ValidRun(|m.frames|, evs)
      && NetDiffs(StorageOf(Flatten(Run(m, evs).stack))) == map[]
      && Load(Run(m, evs).world, Current(m), slot) != Load(m.world, Current(m), slot)
  {
    var evs := [Sstore(slot, value)];
    assert Depth(|m.frames|, evs, 0) >= 1;
    assert evs[..0] == [];
  }
}
