/**
  The recorder over whole runs of an abstract EVM.

  A run is any sequence of events since recording began: frames are entered and ended, by
  return or revert, opcodes touch storage or accounts, cheatcodes and the console are called.
  Frames opened before recording began may end too. The machine keeps the storage, one
  checkpoint per open frame to roll back to, and the recorder's stack.

  The reference for what should have been recorded is the chronicle: one entry per event, in
  order, whose reverted flag is read off the events alone.
 */
module RecorderRuns {
  import opened Layers
  import opened Recorder

  datatype Event =
    | Enter(kind: FrameKind, accessor: Address, account: Address, target: Address)
    | Exit(reverted: bool)
    | Sload(slot: Slot)
    | Sstore(slot: Slot, value: Word)
    | Ext(extKind: ExtKind, account: Address)
    | Destroy(account: Address)
    | Cheat

  type World = map<(Address, Slot), Word>

  function Load(w: World, account: Address, slot: Slot): Word {
    if (account, slot) in w then w[(account, slot)] else 0
  }

  /** `target` is the account whose storage the frame's code uses. */
  datatype Frame = Frame(target: Address, checkpoint: World)

  datatype Machine = Machine(world: World, frames: seq<Frame>, stack: Stack)

  function Current(m: Machine): Address
    requires m.frames != []
  {
    m.frames[|m.frames| - 1].target
  }

  /** Hooks see the depth of the running frame; an `*_end` hook that of the frame returned to. */
  function Step(m: Machine, e: Event): Machine
    requires m.frames != []
  {
    var depth := |m.frames|;
    match e
    case Enter(kind, accessor, account, target) =>
      Machine(m.world, m.frames + [Frame(target, m.world)],
              PushFrame(m.stack, AccountAccess(kind, accessor, account, depth, false, [])))
    case Exit(reverted) =>
      Machine(if reverted then m.frames[depth - 1].checkpoint else m.world, m.frames[..depth - 1],
              EndFrame(m.stack, depth - 1, reverted))
    case Sload(slot) =>
      m.(stack := RecordStorage(m.stack, AccessOf(m, e), depth))
    case Sstore(slot, value) =>
      m.(stack := RecordStorage(m.stack, AccessOf(m, e), depth),
         world := m.world[(Current(m), slot) := value])
    case Ext(kind, account) =>
      m.(stack := RecordExt(m.stack, AccountAccess(kind, Current(m), account, depth, false, [])))
    case Destroy(account) =>
      m.(stack := RecordSelfDestruct(m.stack, AccountAccess(SelfDestruct, Current(m), account, depth, false, [])))
    case Cheat => m
  }

  predicate TouchesStorage(e: Event) { e.Sload? || e.Sstore? }

  /** What a storage opcode does, seen from the state it runs in. */
  function AccessOf(m: Machine, e: Event): StorageAccess
    requires m.frames != [] && TouchesStorage(e)
  {
    var present := Load(m.world, Current(m), e.slot);
    StorageAccess(Current(m), e.slot, e.Sstore?, present, if e.Sstore? then e.value else present, false)
  }

  /* ---------- Runs ---------- */

  /** Depth before event `t`, or after the run when `t` is its length. */
  function Depth(d0: nat, evs: seq<Event>, t: nat): int
    requires t <= |evs|
  {
    if t == 0 then d0
    else Depth(d0, evs, t - 1) + (if evs[t - 1].Enter? then 1 else if evs[t - 1].Exit? then -1 else 0)
  }

  /** Every event happens inside some frame. */
  ghost predicate ValidRun(d0: nat, evs: seq<Event>) {
    forall t :: 0 <= t < |evs| ==> Depth(d0, evs, t) >= 1
  }

  /** A machine on which recording has just begun. */
  predicate Fresh(m: Machine) { m.frames != [] && m.stack == [] }

  lemma {:induction false} DepthPrefix(d0: nat, evs: seq<Event>, n: nat, t: nat)
    requires t <= n <= |evs|
    ensures Depth(d0, evs[..n], t) == Depth(d0, evs, t)
  {
    if t > 0 { DepthPrefix(d0, evs, n, t - 1); }
  }

  lemma ValidPrefix(d0: nat, evs: seq<Event>, n: nat)
    requires n <= |evs| && ValidRun(d0, evs)
    ensures ValidRun(d0, evs[..n])
  {
    forall t | 0 <= t < n ensures Depth(d0, evs[..n], t) >= 1 { DepthPrefix(d0, evs, n, t); }
  }

  ghost function Run(m: Machine, evs: seq<Event>): (r: Machine)
    requires ValidRun(|m.frames|, evs)
    ensures |r.frames| == Depth(|m.frames|, evs, |evs|)
  {
    if evs == [] then m
    else
      var n := |evs| - 1;
      ValidPrefix(|m.frames|, evs, n);
      DepthPrefix(|m.frames|, evs, n, n);
      Step(Run(m, evs[..n]), evs[n])
  }

  /** The state event `i` happens in. */
  ghost function At(m: Machine, evs: seq<Event>, i: nat): (r: Machine)
    requires i < |evs| && ValidRun(|m.frames|, evs)
    ensures r.frames != []
  {
    ValidPrefix(|m.frames|, evs, i);
    DepthPrefix(|m.frames|, evs, i, i);
    Run(m, evs[..i])
  }

  /* ---------- The chronicle ---------- */

  /** Event `k` ends, by revert, a frame that was open right after event `i`; the root frame,
      which returns to depth 0, is not recorded. */
  ghost predicate RevertsAround(d0: nat, evs: seq<Event>, i: nat, k: nat)
    requires i < k < |evs|
  {
    && evs[k] == Exit(true)
    && Depth(d0, evs, k) > 1
    && forall j :: i < j <= k ==> Depth(d0, evs, j) >= Depth(d0, evs, k)
  }

  ghost predicate RolledBack(d0: nat, evs: seq<Event>, i: nat)
    requires i < |evs|
  {
    exists k :: i < k < |evs| && RevertsAround(d0, evs, i, k)
  }

  /** The frame running event `i` was opened since recording began. */
  ghost predicate Opened(d0: nat, evs: seq<Event>, i: nat)
    requires i < |evs|
  {
    exists j :: 0 <= j <= i && Depth(d0, evs, j) < Depth(d0, evs, i)
  }

  /** Some frame was entered or some account inspected before event `i`. */
  ghost predicate Started(evs: seq<Event>, i: nat)
    requires i <= |evs|
  {
    exists j :: 0 <= j < i && (evs[j].Enter? || evs[j].Ext?)
  }

  datatype Item =
    | OnAccount(kind: Kind, accessor: Address, account: Address, depth: nat, reverted: bool)
    | OnStorage(access: StorageAccess)

  function WithFlag(item: Item, reverted: bool): Item {
    match item
    case OnAccount(_, _, _, _, _) => item.(reverted := reverted)
    case OnStorage(access) => OnStorage(access.(reverted := reverted))
  }

  /** What event `i` contributes, before any revert. */
  ghost function Plain(m: Machine, evs: seq<Event>, i: nat): seq<Item>
    requires i < |evs| && ValidRun(|m.frames|, evs)
  {
    var s := At(m, evs, i);
    match evs[i]
    case Enter(kind, accessor, account, _) => [OnAccount(kind, accessor, account, |s.frames|, false)]
    case Ext(kind, account) => [OnAccount(kind, Current(s), account, |s.frames|, false)]
    case Destroy(account) =>
      if Started(evs, i) then [OnAccount(SelfDestruct, Current(s), account, |s.frames|, false)] else []
    case Sload(_) => if Opened(|m.frames|, evs, i) then [OnStorage(AccessOf(s, evs[i]))] else []
    case Sstore(_, _) => if Opened(|m.frames|, evs, i) then [OnStorage(AccessOf(s, evs[i]))] else []
    case _ => []
  }

  ghost function Entry(m: Machine, evs: seq<Event>, i: nat): (r: seq<Item>)
    requires i < |evs| && ValidRun(|m.frames|, evs)
  {
    var plain := Plain(m, evs, i);
    if plain == [] then [] else [WithFlag(plain[0], RolledBack(|m.frames|, evs, i))]
  }

  /** One list per event, with at most one entry each. */
  ghost function Entries(m: Machine, evs: seq<Event>): (r: seq<seq<Item>>)
    requires ValidRun(|m.frames|, evs)
    ensures |r| == |evs|
  {
    seq(|evs|, i requires 0 <= i < |evs| => Entry(m, evs, i))
  }

  /** The entries of the whole run, in order. */
  ghost function Chronicle(m: Machine, evs: seq<Event>): seq<Item>
    requires ValidRun(|m.frames|, evs)
  {
    Concat(Entries(m, evs))
  }

  /* ---------- What the recorder's stack holds ---------- */

  function StorageItems(s: seq<StorageAccess>): (r: seq<Item>)
    ensures |r| == |s|
  {
    seq(|s|, i requires 0 <= i < |s| => OnStorage(s[i]))
  }

  /** Resume records only continue an earlier record, so they add nothing of their own. */
  function RecordItems(a: AccountAccess): seq<Item> {
    (if a.kind == Resume then [] else [OnAccount(a.kind, a.accessor, a.account, a.depth, a.reverted)])
    + StorageItems(a.storageAccesses)
  }

  function Items(v: seq<AccountAccess>): seq<Item> {
    if v == [] then [] else Items(v[..|v| - 1]) + RecordItems(v[|v| - 1])
  }

  function MarkItems(s: seq<Item>): (r: seq<Item>)
    ensures |r| == |s|
  {
    seq(|s|, i requires 0 <= i < |s| => WithFlag(s[i], true))
  }

  lemma {:induction false} ItemsConcat(v: seq<AccountAccess>, w: seq<AccountAccess>)
    ensures Items(v + w) == Items(v) + Items(w)
  {
    if w == [] {
      assert v + w == v;
    } else {
      assert (v + w)[..|v + w| - 1] == v + w[..|w| - 1];
      ItemsConcat(v, w[..|w| - 1]);
    }
  }

  lemma ItemsLast(v: seq<AccountAccess>, w: seq<AccountAccess>, a: AccountAccess)
    requires Pushed(v, w, a)
    ensures Items(w) == Items(v) + RecordItems(a)
  {
    assert w[..|v|] == v;
  }

  lemma RecordItemsMarked(a: AccountAccess)
    ensures RecordItems(MarkRecord(a)) == MarkItems(RecordItems(a))
  {
  }

  lemma {:induction false} ItemsMarked(v: seq<AccountAccess>)
    ensures Items(MarkVector(v)) == MarkItems(Items(v))
  {
    if v != [] {
      var n := |v| - 1;
      ItemsMarked(v[..n]);
      ItemsLast(MarkVector(v[..n]), MarkVector(v), MarkRecord(v[n]));
      RecordItemsMarked(v[n]);
    }
  }

  lemma ItemsFiled(a: AccountAccess, access: StorageAccess)
    ensures RecordItems(FileIn(a, access)) == RecordItems(a) + [OnStorage(access)]
  {
  }

  /** Whichever record it is filed under, a storage access comes last. */
  lemma ItemsAppended(v: seq<AccountAccess>, access: StorageAccess, depth: nat)
    requires v != [] && v[0].depth < depth
    ensures Items(AppendStorageAccess(v, access, depth)) == Items(v) + [OnStorage(access)]
  {
    var r := AppendStorageAccess(v, access, depth);
    var n := |v| - 1;
    if |v| == 1 || v[n].kind == Resume {
      ItemsFiled(v[n], access);
      ItemsLast(v[..n], r, FileIn(v[n], access));
    } else {
      ItemsLast(v, r, ResumeOf(v[0], access));
    }
  }
}
