/**
  The state-diff recorder of the cheatcode inspector.

  While recording is on, the inspector keeps a stack of vectors of account accesses, one
  vector per call frame opened since recording began, on top of at most one base vector.
  The `call` and `create` hooks push a vector, opcode hooks append to the top vector, the
  `*_end` hooks pop the top vector, mark it reverted when the frame reverted and merge it
  into the vector below. The value functions say what each hook does to the stack; the
  class `Inspector` is the imperative code proved against them.
 */
module Recorder {
  import opened Wrappers

  type Address = nat
  type Slot = nat
  type Word = nat

  datatype Kind =
    | Call | DelegateCall | CallCode | StaticCall | Create
    | SelfDestruct | Resume
    | Balance | Extcodesize | Extcodehash | Extcodecopy

  type FrameKind = k: Kind | k.Call? || k.DelegateCall? || k.CallCode? || k.StaticCall? || k.Create? witness Call

  type ExtKind = k: Kind | k.Balance? || k.Extcodesize? || k.Extcodehash? || k.Extcodecopy? witness Balance

  datatype StorageAccess = StorageAccess(
    account: Address, slot: Slot, isWrite: bool,
    previousValue: Word, newValue: Word, reverted: bool)

  datatype AccountAccess = AccountAccess(
    kind: Kind, accessor: Address, account: Address,
    depth: nat, reverted: bool, storageAccesses: seq<StorageAccess>)

  type Stack = seq<seq<AccountAccess>>

  /* ---------- What the hooks do to the stack ---------- */

  function MarkAccesses(s: seq<StorageAccess>): (r: seq<StorageAccess>)
    ensures |r| == |s|
  {
    seq(|s|, i requires 0 <= i < |s| => s[i].(reverted := true))
  }

  function MarkRecord(a: AccountAccess): AccountAccess {
    a.(reverted := true, storageAccesses := MarkAccesses(a.storageAccesses))
  }

  function MarkVector(v: seq<AccountAccess>): (r: seq<AccountAccess>)
    ensures |r| == |v|
  {
    seq(|v|, i requires 0 <= i < |v| => MarkRecord(v[i]))
  }

  /** A new frame gets a vector of its own, holding the record of the call or create. */
  function PushFrame(stack: Stack, entry: AccountAccess): Stack {
    stack + [[entry]]
  }

  /** `depth` is the depth of the frame control returns to. */
  function EndFrame(stack: Stack, depth: nat, reverted: bool): Stack {
    if depth == 0 || stack == [] then
      stack
    else
      var n := |stack| - 1;
      var last := if reverted then MarkVector(stack[n]) else stack[n];
      var rest := stack[..n];
      if last == [] then rest
      else if rest == [] then [last]
      else rest[n - 1 := rest[n - 1] + last]
  }

  /** The record a storage access is filed under once its frame's vector has more than one record. */
  function ResumeOf(entry: AccountAccess, access: StorageAccess): AccountAccess {
    entry.(kind := Resume, storageAccesses := [access])
  }

  function FileIn(a: AccountAccess, access: StorageAccess): AccountAccess {
    a.(storageAccesses := a.storageAccesses + [access])
  }

  /** `depth` is the depth of the frame that touches storage. */
  function AppendStorageAccess(v: seq<AccountAccess>, access: StorageAccess, depth: nat): seq<AccountAccess> {
    if v == [] || v[0].depth >= depth then v
    else if |v| == 1 then v[0 := FileIn(v[0], access)]
    else
      var n := |v| - 1;
      if v[n].kind == Resume then v[n := FileIn(v[n], access)]
      else v + [ResumeOf(v[0], access)]
  }

  function WithTop(stack: Stack, top: seq<AccountAccess>): Stack
    requires stack != []
  {
    stack[|stack| - 1 := top]
  }

  function Top(stack: Stack): seq<AccountAccess>
    requires stack != []
  {
    stack[|stack| - 1]
  }

  /** SLOAD and SSTORE. */
  function RecordStorage(stack: Stack, access: StorageAccess, depth: nat): Stack {
    if stack == [] then stack
    else WithTop(stack, AppendStorageAccess(Top(stack), access, depth))
  }

  /** SELFDESTRUCT. */
  function RecordSelfDestruct(stack: Stack, access: AccountAccess): Stack {
    if stack == [] then stack else WithTop(stack, Top(stack) + [access])
  }

  /** BALANCE and the EXTCODE* family. */
  function RecordExt(stack: Stack, access: AccountAccess): Stack {
    if stack == [] then [[access]] else WithTop(stack, Top(stack) + [access])
  }

  function Flatten(stack: Stack): seq<AccountAccess> {
    if stack == [] then [] else Flatten(stack[..|stack| - 1]) + Top(stack)
  }

  function StorageOf(records: seq<AccountAccess>): seq<StorageAccess> {
    if records == [] then []
    else StorageOf(records[..|records| - 1]) + records[|records| - 1].storageAccesses
  }

  /* ---------- Net diffs ---------- */

  datatype SlotDiff = SlotDiff(previousValue: Word, newValue: Word)

  type StateDiffs = map<Address, map<Slot, SlotDiff>>

  predicate SurvivingWrite(a: StorageAccess, account: Address, slot: Slot) {
    a.isWrite && !a.reverted && a.account == account && a.slot == slot
  }

  predicate Listed(d: StateDiffs, account: Address, slot: Slot) {
    account in d && slot in d[account]
  }

  function Lookup(d: StateDiffs, account: Address, slot: Slot): SlotDiff
    requires Listed(d, account, slot)
  {
    d[account][slot]
  }

  function AddWrite(d: StateDiffs, a: StorageAccess): StateDiffs {
    if !a.isWrite || a.reverted then d
    else
      var slots := if a.account in d then d[a.account] else map[];
      var entry := if a.slot in slots then slots[a.slot].(newValue := a.newValue)
                   else SlotDiff(a.previousValue, a.newValue);
      d[a.account := slots[a.slot := entry]]
  }

  function AddWrites(d: StateDiffs, s: seq<StorageAccess>): StateDiffs {
    if s == [] then d else AddWrite(AddWrites(d, s[..|s| - 1]), s[|s| - 1])
  }

  function NetDiffs(s: seq<StorageAccess>): StateDiffs {
    AddWrites(map[], s)
  }

  lemma {:induction false} AddWritesConcat(d: StateDiffs, s: seq<StorageAccess>, t: seq<StorageAccess>)
    ensures AddWrites(d, s + t) == AddWrites(AddWrites(d, s), t)
  {
    if t == [] {
      assert s + t == s;
    } else {
      assert (s + t)[..|s + t| - 1] == s + t[..|t| - 1];
      AddWritesConcat(d, s, t[..|t| - 1]);
    }
  }

  /** The surviving writes of one slot, in order. */
  function SurvivingWrites(s: seq<StorageAccess>, account: Address, slot: Slot): seq<StorageAccess> {
    if s == [] then []
    else
      var n := |s| - 1;
      SurvivingWrites(s[..n], account, slot) + (if SurvivingWrite(s[n], account, slot) then [s[n]] else [])
  }

  /** A slot is listed exactly when some write to it survives, with the previous value of the
      first surviving write and the new value of the last one. */
  ghost predicate SlotIsNet(d: StateDiffs, s: seq<StorageAccess>, account: Address, slot: Slot) {
    var writes := SurvivingWrites(s, account, slot);
    && (Listed(d, account, slot) <==> writes != [])
    && (writes != [] ==> Lookup(d, account, slot) == SlotDiff(writes[0].previousValue, writes[|writes| - 1].newValue))
  }

  lemma {:induction false} NetDiffsAreNet(s: seq<StorageAccess>, account: Address, slot: Slot)
    ensures SlotIsNet(NetDiffs(s), s, account, slot)
  {
    if s != [] {
      NetDiffsAreNet(s[..|s| - 1], account, slot);
    }
  }

  ghost predicate IsNet(d: StateDiffs, s: seq<StorageAccess>) {
    forall account, slot :: SlotIsNet(d, s, account, slot)
  }

  lemma NetDiffsAllNet(s: seq<StorageAccess>)
    ensures IsNet(NetDiffs(s), s)
  {
    forall account, slot ensures SlotIsNet(NetDiffs(s), s, account, slot) { NetDiffsAreNet(s, account, slot); }
  }

  /** A slot has surviving writes exactly when some access is one. */
  lemma {:induction false} SurvivingWritesSound(s: seq<StorageAccess>, account: Address, slot: Slot)
    ensures SurvivingWrites(s, account, slot) != [] <==> exists a :: a in s && SurvivingWrite(a, account, slot)
  {
    if s != [] {
      var n := |s| - 1;
      SurvivingWritesSound(s[..n], account, slot);
      assert forall a :: a in s <==> a in s[..n] || a == s[n];
    }
  }

  /* ---------- The inspector's code ---------- */

  datatype Callee = CheatcodeAddress | ConsoleAddress | Contract

  class Inspector {
    /** `None` while not recording. */
    var recordedAccountDiffsStack: Option<Stack>

    constructor ()
      ensures recordedAccountDiffsStack == None
    {
      recordedAccountDiffsStack := None;
    }

    method StartStateDiffRecording()
      modifies this
      ensures recordedAccountDiffsStack == Some([])
    {
      recordedAccountDiffsStack := Some([]);
    }

    /** Hands the recorded accesses over in order, leaving an empty recording behind. */
    method StopAndReturnStateDiff() returns (res: seq<AccountAccess>)
      modifies this
      ensures res == match old(recordedAccountDiffsStack) { case None => [] case Some(s) => Flatten(s) }
      ensures recordedAccountDiffsStack == Some([])
    {
      var stack := if recordedAccountDiffsStack.Some? then recordedAccountDiffsStack.value else [];
      recordedAccountDiffsStack := Some([]);
      res := FlattenRecords(stack);
    }

    /** The `call` hook; calls to the cheatcode and console addresses return before the push. */
    method Call(callee: Callee, kind: FrameKind, caller: Address, account: Address, depth: nat)
      modifies this
      ensures recordedAccountDiffsStack ==
        if callee.Contract? && old(recordedAccountDiffsStack).Some?
        then Some(PushFrame(old(recordedAccountDiffsStack).value, AccountAccess(kind, caller, account, depth, false, [])))
        else old(recordedAccountDiffsStack)
    {
      if callee != Contract { return; }
      if recordedAccountDiffsStack.Some? {
        var stack := recordedAccountDiffsStack.value;
        recordedAccountDiffsStack := Some(stack + [[AccountAccess(kind, caller, account, depth, false, [])]]);
      }
    }

    /** The `call_end` hook, with no expected revert or assumption pending. */
    method CallEnd(callee: Callee, depth: nat, reverted: bool)
      modifies this
      ensures recordedAccountDiffsStack ==
        if callee.Contract? && old(recordedAccountDiffsStack).Some?
        then Some(EndFrame(old(recordedAccountDiffsStack).value, depth, reverted))
        else old(recordedAccountDiffsStack)
    {
      if callee != Contract { return; }
      EndRecordedFrame(depth, reverted);
    }

    /** The `create` hook. */
    method Create(caller: Address, account: Address, depth: nat)
      modifies this
      ensures recordedAccountDiffsStack ==
        match old(recordedAccountDiffsStack)
        case None => None
        case Some(s) => Some(PushFrame(s, AccountAccess(Kind.Create, caller, account, depth, false, [])))
    {
      if recordedAccountDiffsStack.Some? {
        var stack := recordedAccountDiffsStack.value;
        recordedAccountDiffsStack := Some(stack + [[AccountAccess(Kind.Create, caller, account, depth, false, [])]]);
      }
    }

    /** The popping, marking and merging shared by `call_end` and `create_end`. */
    method EndRecordedFrame(depth: nat, reverted: bool)
      modifies this
      ensures recordedAccountDiffsStack ==
        match old(recordedAccountDiffsStack)
        case None => None
        case Some(s) => Some(EndFrame(s, depth, reverted))
    {
      if recordedAccountDiffsStack.Some? && depth > 0 {
        var stack := recordedAccountDiffsStack.value;
        if stack != [] {
          var last := stack[|stack| - 1];
          stack := stack[..|stack| - 1];
          if reverted {
            last := MarkAllReverted(last);
          }
          if last != [] {
            if stack != [] {
              stack := stack[|stack| - 1 := stack[|stack| - 1] + last];
            } else {
              stack := [last];
            }
          }
          recordedAccountDiffsStack := Some(stack);
        }
      }
    }

    /** Every record and every storage access is flagged; nothing else changes. */
    static method MarkAllReverted(v: seq<AccountAccess>) returns (r: seq<AccountAccess>)
      ensures r == MarkVector(v)
      ensures |r| == |v| && forall i :: 0 <= i < |v| ==>
        && r[i].reverted && r[i].(reverted := v[i].reverted, storageAccesses := v[i].storageAccesses) == v[i]
        && |r[i].storageAccesses| == |v[i].storageAccesses|
        && forall j :: 0 <= j < |v[i].storageAccesses| ==>
             r[i].storageAccesses[j] == v[i].storageAccesses[j].(reverted := true)
    {
      r := v;
      for i := 0 to |v|
        invariant |r| == |v|
        invariant forall k :: 0 <= k < i ==> r[k] == MarkRecord(v[k])
        invariant forall k :: i <= k < |v| ==> r[k] == v[k]
      {
        var accesses := r[i].storageAccesses;
        for j := 0 to |accesses|
          invariant |accesses| == |v[i].storageAccesses|
          invariant forall k :: 0 <= k < j ==> accesses[k] == v[i].storageAccesses[k].(reverted := true)
          invariant forall k :: j <= k < |accesses| ==> accesses[k] == v[i].storageAccesses[k]
        {
          accesses := accesses[j := accesses[j].(reverted := true)];
        }
        assert accesses == MarkAccesses(v[i].storageAccesses);
        r := r[i := r[i].(reverted := true, storageAccesses := accesses)];
      }
    }

    /** SLOAD: the present value is recorded as both the previous and the new one. */
    method StepLoad(account: Address, slot: Slot, present: Word, depth: nat)
      modifies this
      ensures recordedAccountDiffsStack ==
        match old(recordedAccountDiffsStack)
        case None => None
        case Some(s) => Some(RecordStorage(s, StorageAccess(account, slot, false, present, present, false), depth))
    {
      StepStorage(account, slot, false, present, present, depth);
    }

    /** SSTORE of `value`. */
    method StepStore(account: Address, slot: Slot, present: Word, value: Word, depth: nat)
      modifies this
      ensures recordedAccountDiffsStack ==
        match old(recordedAccountDiffsStack)
        case None => None
        case Some(s) => Some(RecordStorage(s, StorageAccess(account, slot, true, present, value, false), depth))
    {
      StepStorage(account, slot, true, present, value, depth);
    }

    method StepStorage(account: Address, slot: Slot, isWrite: bool, present: Word, value: Word, depth: nat)
      modifies this
      ensures recordedAccountDiffsStack ==
        match old(recordedAccountDiffsStack)
        case None => None
        case Some(s) => Some(RecordStorage(s, StorageAccess(account, slot, isWrite, present, value, false), depth))
    {
      if recordedAccountDiffsStack.None? || recordedAccountDiffsStack.value == [] { return; }
      var stack := recordedAccountDiffsStack.value;
      var access := StorageAccess(account, slot, isWrite, present, value, false);
      var last := stack[|stack| - 1];
      if last != [] && last[0].depth < depth {
        if |last| == 1 {
          last := last[0 := last[0].(storageAccesses := last[0].storageAccesses + [access])];
        } else {
          var k := |last| - 1;
          if last[k].kind == Resume {
            last := last[k := last[k].(storageAccesses := last[k].storageAccesses + [access])];
          } else {
            var entry := last[0];
            last := last + [AccountAccess(Resume, entry.accessor, entry.account, entry.depth, entry.reverted, [access])];
          }
        }
      }
      recordedAccountDiffsStack := Some(stack[|stack| - 1 := last]);
    }

    method StepSelfDestruct(accessor: Address, target: Address, depth: nat)
      modifies this
      ensures recordedAccountDiffsStack ==
        match old(recordedAccountDiffsStack)
        case None => None
        case Some(s) => Some(RecordSelfDestruct(s, AccountAccess(SelfDestruct, accessor, target, depth, false, [])))
    {
      if recordedAccountDiffsStack.None? || recordedAccountDiffsStack.value == [] { return; }
      var stack := recordedAccountDiffsStack.value;
      var n := |stack| - 1;
      recordedAccountDiffsStack :=
        Some(stack[n := stack[n] + [AccountAccess(SelfDestruct, accessor, target, depth, false, [])]]);
    }

    method StepExt(kind: ExtKind, accessor: Address, target: Address, depth: nat)
      modifies this
      ensures recordedAccountDiffsStack ==
        match old(recordedAccountDiffsStack)
        case None => None
        case Some(s) => Some(RecordExt(s, AccountAccess(kind, accessor, target, depth, false, [])))
    {
      if recordedAccountDiffsStack.None? { return; }
      var stack := recordedAccountDiffsStack.value;
      var access := AccountAccess(kind, accessor, target, depth, false, []);
      if stack != [] {
        recordedAccountDiffsStack := Some(stack[|stack| - 1 := stack[|stack| - 1] + [access]]);
      } else {
        recordedAccountDiffsStack := Some([[access]]);
      }
    }

    /** The fold behind `getStateDiff`, slot by slot. */
    method GetRecordedStateDiffs() returns (diffs: StateDiffs)
      ensures recordedAccountDiffsStack.None? ==> diffs == map[]
      ensures recordedAccountDiffsStack.Some? ==>
        diffs == NetDiffs(StorageOf(Flatten(recordedAccountDiffsStack.value)))
      ensures recordedAccountDiffsStack.Some? ==>
        IsNet(diffs, StorageOf(Flatten(recordedAccountDiffsStack.value)))
    {
      diffs := map[];
      if recordedAccountDiffsStack.None? { return; }
      var records := FlattenRecords(recordedAccountDiffsStack.value);
      for i := 0 to |records|
        invariant diffs == NetDiffs(StorageOf(records[..i]))
      {
        assert records[..i + 1][..i] == records[..i];
        AddWritesConcat(map[], StorageOf(records[..i]), records[i].storageAccesses);
        if records[i].storageAccesses != [] {
          diffs := AddRecordDiffs(diffs, records[i].storageAccesses);
        }
      }
      assert records[..|records|] == records;
      NetDiffsAllNet(StorageOf(records));
    }

    static method AddRecordDiffs(before: StateDiffs, accesses: seq<StorageAccess>) returns (diffs: StateDiffs)
      ensures diffs == AddWrites(before, accesses)
    {
      diffs := before;
      for j := 0 to |accesses|
        invariant diffs == AddWrites(before, accesses[..j])
      {
        assert accesses[..j + 1][..j] == accesses[..j];
        var a := accesses[j];
        if a.isWrite && !a.reverted {
          var slots := if a.account in diffs then diffs[a.account] else map[];
          if a.slot in slots {
            diffs := diffs[a.account := slots[a.slot := slots[a.slot].(newValue := a.newValue)]];
          } else {
            diffs := diffs[a.account := slots[a.slot := SlotDiff(a.previousValue, a.newValue)]];
          }
        }
      }
      assert accesses[..|accesses|] == accesses;
    }

    static method FlattenRecords(stack: Stack) returns (records: seq<AccountAccess>)
      ensures records == Flatten(stack)
    {
      records := [];
      for i := 0 to |stack|
        invariant records == Flatten(stack[..i])
      {
        assert stack[..i + 1][..i] == stack[..i];
        records := records + stack[i];
      }
      assert stack[..|stack|] == stack;
    }
  }
}
