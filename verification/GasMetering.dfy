/**
  Gas metering cheatcodes: pausing gas across nested frames, and gas snapshots.
 */
module GasMetering {
  import opened Wrappers
  import opened Words

  datatype Gas = Gas(limit: nat, spent: nat, refunded: int)

  /** The gas of a frame that has spent nothing. */
  function Unspent(gas: Gas): Gas { Gas(gas.limit, 0, 0) }

  /* ---------- Paused gas ---------- */

  /** One stack of paused gas values for all frames; `touched` once metering was resumed or
      reset, `reset` until the next step. */
  datatype Meter = Meter(paused: bool, touched: bool, reset: bool, pausedFrames: seq<Gas>)

  function Initialized(m: Meter, gas: Gas): Meter {
    if m.paused then m.(pausedFrames := m.pausedFrames + [gas]) else m
  }

  /** Keeps the gas constant while paused. */
  function Held(m: Meter, gas: Gas): (Meter, Gas) {
    if !m.paused then (m, gas)
    else if m.pausedFrames != [] then (m, m.pausedFrames[|m.pausedFrames| - 1])
    else (m.(pausedFrames := m.pausedFrames + [gas]), gas)
  }

  /** The new meter and the gas the frame goes on with. */
  function Stepped(m: Meter, gas: Gas): (Meter, Gas) {
    var (t, g) := Held(m, gas);
    if t.reset then (t.(reset := false), Unspent(g)) else (t, g)
  }

  /** After pausing or resetting, a frame may end with less spent than refunded. */
  function Reconciled(touched: bool, exits: bool, gas: Gas): Gas {
    if touched && exits && gas.spent < gas.refunded then Unspent(gas) else gas
  }

  function StepEnded(m: Meter, exits: bool, gas: Gas): (Meter, Gas) {
    (if m.paused && exits && m.pausedFrames != [] then m.(pausedFrames := m.pausedFrames[..|m.pausedFrames| - 1]) else m,
     Reconciled(m.touched, exits, gas))
  }

  function Paused(m: Meter): Meter { m.(paused := true) }

  function Resumed(m: Meter): Meter { Meter(false, m.touched || m.paused, m.reset, []) }

  function WasReset(m: Meter): Meter { Meter(false, true, true, []) }

  const INITIAL := Meter(false, false, false, [])

  /** The reference: every open frame, outermost first, remembers its own first paused gas. */
  datatype Ledger = Ledger(paused: bool, touched: bool, reset: bool, firsts: seq<Option<Gas>>)

  function Forgotten(n: nat): (r: seq<Option<Gas>>)
    ensures |r| == n && forall i :: 0 <= i < n ==> r[i] == None
  {
    seq(n, i => None)
  }

  datatype Event =
    | Init(gas: Gas)
    | Step(gas: Gas)
    | StepEnd(exits: bool, gas: Gas)
    | Pause
    | Resume
    | Reset

  /** The gas a frame goes on with is what is observed of an event. */
  function MeterNext(m: Meter, e: Event): (Meter, Option<Gas>) {
    match e
    case Init(gas) => (Initialized(m, gas), None)
    case Step(gas) => var (t, g) := Stepped(m, gas); (t, Some(g))
    case StepEnd(exits, gas) => var (t, g) := StepEnded(m, exits, gas); (t, Some(g))
    case Pause => (Paused(m), None)
    case Resume => (Resumed(m), None)
    case Reset => (WasReset(m), None)
  }

  function LedgerNext(l: Ledger, e: Event): (Ledger, Option<Gas>)
    requires Admissible(l, e)
  {
    var top := |l.firsts| - 1;
    match e
    case Init(gas) => (l.(firsts := l.firsts + [if l.paused then Some(gas) else None]), None)
    case Step(gas) =>
      var first := if l.firsts[top].Some? then l.firsts[top].value else gas;
      var held := if l.paused then first else gas;
      (l.(reset := false, firsts := if l.paused then l.firsts[top := Some(first)] else l.firsts),
       Some(if l.reset then Gas(held.limit, 0, 0) else held))
    case StepEnd(exits, gas) =>
      (if exits then l.(firsts := l.firsts[..top]) else l,
       Some(if l.touched && exits && gas.spent < gas.refunded then Gas(gas.limit, 0, 0) else gas))
    case Pause => (l.(paused := true), None)
    case Resume => (Ledger(false, l.touched || l.paused, l.reset, Forgotten(|l.firsts|)), None)
    case Reset => (Ledger(false, true, true, Forgotten(|l.firsts|)), None)
  }

  /** Steps happen inside a frame. */
  predicate Admissible(l: Ledger, e: Event) {
    e.Step? || e.StepEnd? ==> l.firsts != []
  }

  predicate ValidRun(l: Ledger, evs: seq<Event>)
    decreases |evs|
  {
    evs == [] || (Admissible(l, evs[0]) && ValidRun(LedgerNext(l, evs[0]).0, evs[1..]))
  }

  function Observed(m: Meter, evs: seq<Event>): seq<Option<Gas>>
    decreases |evs|
  {
    if evs == [] then [] else
      var (t, g) := MeterNext(m, evs[0]);
      [g] + Observed(t, evs[1..])
  }

  function Expected(l: Ledger, evs: seq<Event>): seq<Option<Gas>>
    requires ValidRun(l, evs)
    decreases |evs|
  {
    if evs == [] then [] else
      var (t, g) := LedgerNext(l, evs[0]);
      [g] + Expected(t, evs[1..])
  }

  /** The remembered values, outermost first. */
  function Remembered(firsts: seq<Option<Gas>>): seq<Gas> {
    if firsts == [] then []
    else
      var n := |firsts| - 1;
      Remembered(firsts[..n]) + (if firsts[n].Some? then [firsts[n].value] else [])
  }

  /** The stack is what the frames remember; those that do are the innermost ones. */
  ghost predicate Refines(m: Meter, l: Ledger) {
    && m.paused == l.paused && m.touched == l.touched && m.reset == l.reset
    && m.pausedFrames == Remembered(l.firsts)
    && (forall i, j :: 0 <= i < j < |l.firsts| && l.firsts[i].Some? ==> l.firsts[j].Some?)
    && (!l.paused ==> forall i :: 0 <= i < |l.firsts| ==> l.firsts[i] == None)
  }

  lemma {:induction false} NoneRemembered(firsts: seq<Option<Gas>>)
    requires forall i :: 0 <= i < |firsts| ==> firsts[i] == None
    ensures Remembered(firsts) == []
  {
    if firsts != [] { NoneRemembered(firsts[..|firsts| - 1]); }
  }

  lemma RefinesInit(m: Meter, l: Ledger, gas: Gas)
    requires Refines(m, l)
    ensures Refines(Initialized(m, gas), LedgerNext(l, Init(gas)).0)
  {
    var t := LedgerNext(l, Init(gas)).0;
    assert t.firsts[..|l.firsts|] == l.firsts;
  }

  lemma RefinesStep(m: Meter, l: Ledger, gas: Gas)
    requires Refines(m, l) && l.firsts != []
    ensures Refines(Stepped(m, gas).0, LedgerNext(l, Step(gas)).0)
    ensures Some(Stepped(m, gas).1) == LedgerNext(l, Step(gas)).1
  {
    var t, top := LedgerNext(l, Step(gas)).0, |l.firsts| - 1;
    if l.paused {
      if l.firsts[top].None? {
        NoneRemembered(l.firsts);
        NoneRemembered(l.firsts[..top]);
        assert t.firsts[..top] == l.firsts[..top];
      } else {
        assert t.firsts == l.firsts;
      }
    }
  }

  lemma RefinesEnd(m: Meter, l: Ledger, exits: bool, gas: Gas)
    requires Refines(m, l) && l.firsts != []
    ensures Refines(StepEnded(m, exits, gas).0, LedgerNext(l, StepEnd(exits, gas)).0)
  {
    var top := |l.firsts| - 1;
    if l.firsts[top].None? {
      NoneRemembered(l.firsts);
      NoneRemembered(l.firsts[..top]);
    }
  }

  lemma RefinesCleared(m: Meter, l: Ledger)
    requires Refines(m, l)
    ensures Refines(Resumed(m), LedgerNext(l, Resume).0) && Refines(WasReset(m), LedgerNext(l, Reset).0)
  {
    NoneRemembered(LedgerNext(l, Resume).0.firsts);
    NoneRemembered(LedgerNext(l, Reset).0.firsts);
  }

  lemma RefinesNext(m: Meter, l: Ledger, e: Event)
    requires Refines(m, l) && Admissible(l, e)
    ensures Refines(MeterNext(m, e).0, LedgerNext(l, e).0)
    ensures MeterNext(m, e).1 == LedgerNext(l, e).1
  {
    match e
    case Init(gas) => RefinesInit(m, l, gas);
    case Step(gas) => RefinesStep(m, l, gas);
    case StepEnd(exits, gas) => RefinesEnd(m, l, exits, gas);
    case Pause =>
    case Resume => RefinesCleared(m, l);
    case Reset => RefinesCleared(m, l);
  }

  lemma {:induction false} ObservedAsExpected(m: Meter, l: Ledger, evs: seq<Event>)
    requires Refines(m, l) && ValidRun(l, evs)
    ensures Observed(m, evs) == Expected(l, evs)
    decreases |evs|
  {
    if evs != [] {
      RefinesNext(m, l, evs[0]);
      ObservedAsExpected(MeterNext(m, evs[0]).0, LedgerNext(l, evs[0]).0, evs[1..]);
    }
  }

  /** Over every run of nested frames, pauses, resumes and resets, each step under a pause goes
      on with exactly the gas its own frame had when it was first observed under that pause,
      given back in full where a reset is due. */
  lemma PausedGasIsPerFrame(evs: seq<Event>)
    requires ValidRun(Ledger(false, false, false, []), evs)
    ensures Observed(INITIAL, evs) == Expected(Ledger(false, false, false, []), evs)
  {
    assert Remembered([]) == [];
    ObservedAsExpected(INITIAL, Ledger(false, false, false, []), evs);
  }

  /* ---------- Gas snapshots ---------- */

  datatype GasRecord = GasRecord(group: string, name: string, gasUsed: nat, depth: nat)

  datatype Snapshots = Snapshots(
    active: Option<(string, string)>, recording: bool, lastGasUsed: nat, records: seq<GasRecord>)

  const EMPTY := Snapshots(None, false, 0, [])

  function SaturatingSub(a: nat, b: nat): nat { if a >= b then a - b else 0 }

  function SaturatingAdd(a: nat, b: nat): nat { if a + b <= U64_MAX then a + b else U64_MAX }

  /** What the snapshot cheatcode itself costs. */
  const SNAPSHOT_COST: nat := 171

  function SnapshotStarted(s: Snapshots, group: string, name: string, depth: nat): Snapshots {
    if s.active.Some? then s
    else Snapshots(Some((group, name)), true, s.lastGasUsed, s.records + [GasRecord(group, name, 0, depth)])
  }

  function Target(s: Snapshots, group: Option<string>, name: Option<string>): Option<(string, string)> {
    if group.Some? && name.Some? then Some((group.value, name.value)) else s.active
  }

  function FindRecord(records: seq<GasRecord>, group: string, name: string): (r: Option<GasRecord>)
    ensures r.Some? ==> r.value in records && r.value.group == group && r.value.name == name
    ensures r.None? ==> forall k :: 0 <= k < |records| ==> records[k].group != group || records[k].name != name
  {
    if records == [] then None
    else if records[0].group == group && records[0].name == name then Some(records[0])
    else FindRecord(records[1..], group, name)
  }

  /** The code keeps the records that differ in both the group and the name. */
  function Retained(records: seq<GasRecord>, group: string, name: string): seq<GasRecord> {
    if records == [] then []
    else
      var n := |records| - 1;
      Retained(records[..n], group, name) +
      (if records[n].group != group && records[n].name != name then [records[n]] else [])
  }

  datatype StopError = NothingActive | NotStarted

  /** Stopping without both a group and a name stops the active snapshot; the code panics when
      there is none. */
  function SnapshotStopped(s: Snapshots, group: Option<string>, name: Option<string>): (Snapshots, Result<nat, StopError>) {
    match Target(s, group, name)
    case None => (s, Err(NothingActive))
    case Some((g, n)) =>
      match FindRecord(s.records, g, n)
      case None => (s, Err(NotStarted))
      case Some(r) =>
        (Snapshots(if s.active == Some((g, n)) then None else s.active, false, s.lastGasUsed, Retained(s.records, g, n)),
         Ok(SaturatingSub(r.gasUsed, SNAPSHOT_COST)))
  }

  function Recorded(r: GasRecord, last: nat, depth: nat, spent: nat): (GasRecord, nat) {
    if depth != r.depth then (r, last)
    else
      (if last != 0 then r.(gasUsed := SaturatingAdd(r.gasUsed, SaturatingSub(spent, last))) else r, spent)
  }

  function RecordedAll(records: seq<GasRecord>, last: nat, depth: nat, spent: nat): (seq<GasRecord>, nat) {
    if records == [] then ([], last)
    else
      var n := |records| - 1;
      var (before, l) := RecordedAll(records[..n], last, depth, spent);
      var (r, l') := Recorded(records[n], l, depth, spent);
      (before + [r], l')
  }

  /** One opcode at `depth`, in a frame that has spent `spent` so far. */
  function SnapshotStep(s: Snapshots, depth: nat, spent: nat, continues: bool): Snapshots {
    if s.recording && continues then
      var (records, last) := RecordedAll(s.records, s.lastGasUsed, depth, spent);
      s.(records := records, lastGasUsed := last)
    else s
  }

  /** The inspector's code for both. */
  class Metering {
    var paused: bool
    var touched: bool
    var reset: bool
    var pausedFrames: seq<Gas>
    var activeGasSnapshot: Option<(string, string)>
    var recording: bool
    var lastGasUsed: nat
    var gasRecords: seq<GasRecord>
    var gasSnapshots: map<(string, string), nat>

    function Pausing(): Meter
      reads this
    {
      Meter(paused, touched, reset, pausedFrames)
    }

    function Snapshotting(): Snapshots
      reads this
    {
      Snapshots(activeGasSnapshot, recording, lastGasUsed, gasRecords)
    }

    constructor ()
      ensures Pausing() == INITIAL && Snapshotting() == EMPTY && gasSnapshots == map[]
    {
      paused, touched, reset, pausedFrames := false, false, false, [];
      activeGasSnapshot, recording, lastGasUsed, gasRecords := None, false, 0, [];
      gasSnapshots := map[];
    }

    method InitializeInterp(gas: Gas)
      modifies this
      ensures Pausing() == Initialized(old(Pausing()), gas) && Snapshotting() == old(Snapshotting())
    {
      if paused { pausedFrames := pausedFrames + [gas]; }
    }

    /** `meter_gas`, called while paused. */
    method MeterGas(gas: Gas) returns (after: Gas)
      requires paused
      modifies this
      ensures (Pausing(), after) == Held(old(Pausing()), gas) && Snapshotting() == old(Snapshotting())
    {
      after := gas;
      if pausedFrames != [] {
        after := pausedFrames[|pausedFrames| - 1];
      } else {
        pausedFrames := pausedFrames + [gas];
      }
    }

    /** The gas part of the `step` hook. */
    method GasStep(gas: Gas) returns (after: Gas)
      modifies this
      ensures (Pausing(), after) == Stepped(old(Pausing()), gas) && Snapshotting() == old(Snapshotting())
    {
      after := gas;
      if paused { after := MeterGas(after); }
      if reset {
        after := Unspent(after);
        reset := false;
      }
    }

    /** `meter_gas_end`, called while paused. */
    method MeterGasEnd(exits: bool)
      requires paused
      modifies this
      ensures Pausing() == StepEnded(old(Pausing()), exits, Gas(0, 0, 0)).0 && Snapshotting() == old(Snapshotting())
    {
      if exits && pausedFrames != [] {
        pausedFrames := pausedFrames[..|pausedFrames| - 1];
      }
    }

    /** The gas part of the `step_end` hook. */
    method GasStepEnd(exits: bool, gas: Gas) returns (after: Gas)
      modifies this
      ensures (Pausing(), after) == StepEnded(old(Pausing()), exits, gas) && Snapshotting() == old(Snapshotting())
    {
      after := gas;
      if paused { MeterGasEnd(exits); }
      if touched && exits && after.spent < (if after.refunded >= 0 then after.refunded else 0) {
        after := Unspent(after);
      }
    }

    method PauseGas()
      modifies this
      ensures Pausing() == Paused(old(Pausing())) && Snapshotting() == old(Snapshotting())
    {
      paused := true;
    }

    method ResumeGas()
      modifies this
      ensures Pausing() == Resumed(old(Pausing())) && Snapshotting() == old(Snapshotting())
    {
      if paused {
        paused := false;
        touched := true;
      }
      pausedFrames := [];
    }

    method ResetGas()
      modifies this
      ensures Pausing() == WasReset(old(Pausing())) && Snapshotting() == old(Snapshotting())
    {
      paused := false;
      touched := true;
      reset := true;
      pausedFrames := [];
    }

    method StartSnapshot(group: string, name: string, depth: nat) returns (ok: bool)
      modifies this
      ensures ok <==> old(activeGasSnapshot).None?
      ensures !ok ==> Snapshotting() == old(Snapshotting())
      ensures Snapshotting() == SnapshotStarted(old(Snapshotting()), group, name, depth)
      ensures Pausing() == old(Pausing()) && gasSnapshots == old(gasSnapshots)
    {
      if activeGasSnapshot.Some? { return false; }
      gasRecords := gasRecords + [GasRecord(group, name, 0, depth)];
      activeGasSnapshot := Some((group, name));
      recording := true;
      return true;
    }

    method StopSnapshot(group: Option<string>, name: Option<string>) returns (r: Result<nat, StopError>)
      modifies this
      ensures (Snapshotting(), r) == SnapshotStopped(old(Snapshotting()), group, name)
      ensures Pausing() == old(Pausing())
      ensures r.Err? ==> gasSnapshots == old(gasSnapshots)
      ensures r.Ok? ==>
        var both := group.Some? && name.Some?;
        && (both || old(activeGasSnapshot).Some?)
        && var (g, n) := if both then (group.value, name.value) else old(activeGasSnapshot).value;
        && gasSnapshots == old(gasSnapshots)[(g, n) := r.value]
        && exists record :: record in old(gasRecords) && record.group == g && record.name == n
             && r.value == if record.gasUsed > 171 then record.gasUsed - 171 else 0
    {
      var target := if group.Some? && name.Some? then Some((group.value, name.value)) else activeGasSnapshot;
      if target.None? { return Err(NothingActive); }
      var (g, n) := target.value;
      var found := FindRecord(gasRecords, g, n);
      if found.None? { return Err(NotStarted); }
      var value := SaturatingSub(found.value.gasUsed, SNAPSHOT_COST);
      gasSnapshots := gasSnapshots[(g, n) := value];
      recording := false;
      var kept: seq<GasRecord> := [];
      for i := 0 to |gasRecords|
        invariant kept == Retained(gasRecords[..i], g, n)
        invariant unchanged(this`gasRecords)
        invariant unchanged(this`activeGasSnapshot) && unchanged(this`lastGasUsed)
        invariant Pausing() == old(Pausing()) && !recording && gasSnapshots == old(gasSnapshots)[(g, n) := value]
      {
        assert gasRecords[..i + 1][..i] == gasRecords[..i];
        if gasRecords[i].group != g && gasRecords[i].name != n {
          kept := kept + [gasRecords[i]];
        }
      }
      assert gasRecords[..|gasRecords|] == gasRecords;
      gasRecords := kept;
      if activeGasSnapshot == Some((g, n)) {
        activeGasSnapshot := None;
      }
      return Ok(value);
    }

    method MeterGasRecord(depth: nat, spent: nat, continues: bool)
      modifies this
      ensures Snapshotting() == SnapshotStep(old(Snapshotting()), depth, spent, continues)
      ensures Pausing() == old(Pausing()) && gasSnapshots == old(gasSnapshots)
    {
      if !recording || !continues { return; }
      gasRecords, lastGasUsed := ChargeRecords(gasRecords, lastGasUsed, depth, spent);
    }

    /** The loop over the records, each charged in turn against the shared last reading. */
    static method ChargeRecords(records: seq<GasRecord>, last: nat, depth: nat, spent: nat)
      returns (charged: seq<GasRecord>, reading: nat)
      ensures (charged, reading) == RecordedAll(records, last, depth, spent)
    {
      charged, reading := [], last;
      for i := 0 to |records|
        invariant (charged, reading) == RecordedAll(records[..i], last, depth, spent)
      {
        assert records[..i + 1][..i] == records[..i];
        var record := records[i];
        if depth == record.depth {
          if reading != 0 {
            record := record.(gasUsed := SaturatingAdd(record.gasUsed, SaturatingSub(spent, reading)));
          }
          reading := spent;
        }
        charged := charged + [record];
      }
      assert records[..|records|] == records;
    }
  }

  /* ---------- One snapshot at a time ---------- */

  datatype Action =
    | StartSnap(group: string, name: string, depth: nat)
    | StopSnap(group': Option<string>, name': Option<string>)
    | Opcode(at: nat, spent: nat, continues: bool)

  function Act(s: Snapshots, a: Action): Snapshots {
    match a
    case StartSnap(g, n, depth) => SnapshotStarted(s, g, n, depth)
    case StopSnap(g, n) => SnapshotStopped(s, g, n).0
    case Opcode(depth, spent, continues) => SnapshotStep(s, depth, spent, continues)
  }

  function ActAll(s: Snapshots, acts: seq<Action>): Snapshots {
    if acts == [] then s else Act(ActAll(s, acts[..|acts| - 1]), acts[|acts| - 1])
  }

  /** There is an active snapshot exactly while recording, and its record is then the only one. */
  predicate Coherent(s: Snapshots) {
    match s.active
    case None => !s.recording && s.records == []
    case Some((g, n)) => s.recording && |s.records| == 1 && s.records[0].group == g && s.records[0].name == n
  }

  lemma OneRecordStep(t: Snapshots, depth: nat, spent: nat)
    requires Coherent(t) && t.recording
    ensures
      var u := SnapshotStep(t, depth, spent, true);
      Coherent(u) && u.recording && (u.records[0], u.lastGasUsed) == Recorded(t.records[0], t.lastGasUsed, depth, spent)
  {
    assert t.records[..0] == [];
    assert RecordedAll(t.records[..0], t.lastGasUsed, depth, spent) == ([], t.lastGasUsed);
  }

  /** What a stop answers: with a group and a name it must be the active snapshot's, otherwise
      there must be one; and then the answer is its record less the cost of the cheatcode. */
  predicate Answers(s: Snapshots, group: Option<string>, name: Option<string>, t: Snapshots, r: Result<nat, StopError>)
    requires Coherent(s)
  {
    var both := group.Some? && name.Some?;
    if s.active.None? then t == s && r == Err(if both then NotStarted else NothingActive)
    else if both && s.active != Some((group.value, name.value)) then t == s && r == Err(NotStarted)
    else
      && t == Snapshots(None, false, s.lastGasUsed, [])
      && r == Ok(if s.records[0].gasUsed > 171 then s.records[0].gasUsed - 171 else 0)
  }

  lemma CoherentStop(s: Snapshots, group: Option<string>, name: Option<string>)
    requires Coherent(s)
    ensures Answers(s, group, name, SnapshotStopped(s, group, name).0, SnapshotStopped(s, group, name).1)
  {
    if s.active.Some? {
      var r := s.records[0];
      assert s.records[1..] == [] && s.records[..0] == [];
      assert Retained(s.records, r.group, r.name) == Retained([], r.group, r.name) + [] == [];
    }
  }

  lemma CoherentAct(s: Snapshots, a: Action)
    requires Coherent(s)
    ensures Coherent(Act(s, a))
  {
    match a
    case StartSnap(_, _, _) =>
    case StopSnap(g, n) => CoherentStop(s, g, n);
    case Opcode(depth, spent, continues) =>
      if s.recording && continues { OneRecordStep(s, depth, spent); }
  }

  lemma {:induction false} SnapshotsCoherent(acts: seq<Action>)
    ensures Coherent(ActAll(EMPTY, acts))
  {
    if acts != [] {
      SnapshotsCoherent(acts[..|acts| - 1]);
      CoherentAct(ActAll(EMPTY, acts[..|acts| - 1]), acts[|acts| - 1]);
    }
  }

  /** So a stop succeeds exactly when it is the active snapshot that is to be stopped. It then
      ends it and leaves nothing behind, although the code drops every record that shares either
      the group or the name. */
  lemma StopEndsTheActive(acts: seq<Action>, group: Option<string>, name: Option<string>)
    ensures
      var s := ActAll(EMPTY, acts);
      Coherent(s) && Answers(s, group, name, SnapshotStopped(s, group, name).0, SnapshotStopped(s, group, name).1)
  {
    SnapshotsCoherent(acts);
    CoherentStop(ActAll(EMPTY, acts), group, name);
  }

  /* ---------- What a snapshot measures ---------- */

  predicate Opcodes(acts: seq<Action>) {
    forall i :: 0 <= i < |acts| ==> acts[i].Opcode?
  }

  /** What the recorded frame has spent at its own steps, those that go on; steps of child frames
      run at other depths. */
  function SpentAt(steps: seq<Action>, depth: nat): seq<nat> {
    if steps == [] then []
    else
      var n := |steps| - 1;
      SpentAt(steps[..n], depth) +
      (if steps[n].Opcode? && steps[n].continues && steps[n].at == depth then [steps[n].spent] else [])
  }

  predicate Monotone(xs: seq<nat>) {
    forall i, j :: 0 <= i <= j < |xs| ==> xs[i] <= xs[j]
  }

  /** Gas charged at the first step for the gas spent since the last one ever recorded. */
  function Carried(last: nat, first: nat): nat {
    if last != 0 then SaturatingSub(first, last) else 0
  }

  /** By how much the readings `xs` grow in all, each compared with the one before it, the first
      with `start`; growth from zero does not count. */
  function Growth(start: nat, xs: seq<nat>): nat {
    if xs == [] then 0
    else
      var n := |xs| - 1;
      var before := if n == 0 then start else xs[n - 1];
      Growth(start, xs[..n]) + (if 0 < before < xs[n] then xs[n] - before else 0)
  }

  /** The record after the readings `xs` of its frame: 64-bit arithmetic that saturates. */
  predicate Grown(start: nat, t: Snapshots, xs: seq<nat>, depth: nat) {
    && Coherent(t) && t.recording && t.records[0].depth == depth
    && t.lastGasUsed == (if xs == [] then start else xs[|xs| - 1])
    && t.records[0].gasUsed == if Growth(start, xs) <= U64_MAX then Growth(start, xs) else U64_MAX
  }

  lemma GrownStep(start: nat, t: Snapshots, xs: seq<nat>, depth: nat, e: Action)
    requires Grown(start, t, xs, depth) && e.Opcode?
    ensures Grown(start, Act(t, e), if e.continues && e.at == depth then xs + [e.spent] else xs, depth)
  {
    if e.continues { OneRecordStep(t, e.at, e.spent); }
    assert (xs + [e.spent])[..|xs|] == xs;
  }

  /** Whatever the readings, a record is charged by how much they grow in all. */
  lemma {:induction false} ChargesGrowth(s: Snapshots, steps: seq<Action>, depth: nat)
    requires Coherent(s) && s.recording && s.records[0].depth == depth && s.records[0].gasUsed == 0 && Opcodes(steps)
    ensures Grown(s.lastGasUsed, ActAll(s, steps), SpentAt(steps, depth), depth)
  {
    if steps != [] {
      var n := |steps| - 1;
      ChargesGrowth(s, steps[..n], depth);
      GrownStep(s.lastGasUsed, ActAll(s, steps[..n]), SpentAt(steps[..n], depth), depth, steps[n]);
      assert SpentAt(steps[..n], depth) + [] == SpentAt(steps[..n], depth);
    }
  }

  /** Readings that never shrink, of 64 bits. */
  predicate Growing(xs: seq<nat>) {
    Monotone(xs) && (xs != [] ==> xs[|xs| - 1] <= U64_MAX)
  }

  lemma GrowingPrefix(xs: seq<nat>, x: nat)
    requires Growing(xs + [x])
    ensures Growing(xs) && (xs != [] ==> xs[|xs| - 1] <= x) && x <= U64_MAX
  {
    var ys := xs + [x];
    forall i, j | 0 <= i <= j < |xs| ensures xs[i] <= xs[j] { assert ys[i] <= ys[j]; }
    if xs != [] { assert ys[|xs| - 1] <= ys[|xs|]; }
  }

  /** The first positive reading, or zero. */
  function FirstPositive(xs: seq<nat>): nat {
    if xs == [] then 0
    else
      var n := |xs| - 1;
      if FirstPositive(xs[..n]) > 0 then FirstPositive(xs[..n]) else xs[n]
  }

  lemma {:induction false} FirstPositiveIs(xs: seq<nat>)
    requires Growing(xs) && xs != []
    ensures FirstPositive(xs) <= xs[|xs| - 1] && (FirstPositive(xs) == 0 <==> xs[|xs| - 1] == 0)
    ensures xs[0] > 0 ==> FirstPositive(xs) == xs[0]
  {
    var n := |xs| - 1;
    if n > 0 {
      assert xs[..n] + [xs[n]] == xs;
      GrowingPrefix(xs[..n], xs[n]);
      FirstPositiveIs(xs[..n]);
    } else {
      assert xs[..0] == [] && FirstPositive([]) == 0;
    }
  }

  /** What the record is charged for readings `xs`, the last reading before them being `start`:
      nothing until a reading is positive, except for a positive first one. */
  function Charged(start: nat, xs: seq<nat>): int
    requires xs != []
  {
    Carried(start, xs[0]) + xs[|xs| - 1] - FirstPositive(xs)
  }

  /** The record after the readings `xs` of its frame. */
  predicate Reads(start: nat, t: Snapshots, xs: seq<nat>, depth: nat) {
    && Coherent(t) && t.recording && t.records[0].depth == depth
    && if xs == [] then t.lastGasUsed == start && t.records[0].gasUsed == 0
       else t.lastGasUsed == xs[|xs| - 1] && t.records[0].gasUsed == Charged(start, xs)
  }

  lemma ChargedMore(start: nat, xs: seq<nat>, x: nat)
    requires xs != [] && Growing(xs + [x])
    ensures
      var last := xs[|xs| - 1];
      && last <= x <= U64_MAX && 0 <= Charged(start, xs) <= last
      && Charged(start, xs + [x]) == Charged(start, xs) + (if last != 0 then x - last else 0)
  {
    var ys := xs + [x];
    GrowingPrefix(xs, x);
    FirstPositiveIs(xs);
    assert ys[..|xs|] == xs;
  }

  lemma ChargedFirst(start: nat, x: nat)
    ensures Charged(start, [x]) == Carried(start, x)
  {
    assert [x][..0] == [] && FirstPositive([]) == 0;
    assert FirstPositive([x]) == x;
  }

  /** The growth of readings that never shrink telescopes. */
  lemma {:induction false} GrowthTelescopes(start: nat, xs: seq<nat>)
    requires xs != [] && Growing(xs)
    ensures Growth(start, xs) == Charged(start, xs) <= U64_MAX
  {
    var n := |xs| - 1;
    var before, x := xs[..n], xs[n];
    assert before + [x] == xs;
    if n == 0 {
      assert xs == [x] && Growth(start, before) == 0;
      ChargedFirst(start, x);
    } else {
      GrowingPrefix(before, x);
      GrowthTelescopes(start, before);
      ChargedMore(start, before, x);
    }
  }

  lemma Telescopes(s: Snapshots, steps: seq<Action>, depth: nat)
    requires Coherent(s) && s.recording && s.records[0].depth == depth && s.records[0].gasUsed == 0
    requires Opcodes(steps) && Growing(SpentAt(steps, depth))
    ensures Reads(s.lastGasUsed, ActAll(s, steps), SpentAt(steps, depth), depth)
  {
    ChargesGrowth(s, steps, depth);
    if SpentAt(steps, depth) != [] { GrowthTelescopes(s.lastGasUsed, SpentAt(steps, depth)); }
  }

  /** Over one frame with readings that never shrink, child calls included, a snapshot measures
      the gas spent between its first and last step exactly when: the first reading is positive
      and no earlier recording had stopped at a smaller positive one, whose gas it would charge
      as well; or all readings are zero, since nothing is charged up to the first positive one. */
  predicate Exact(last: nat, xs: seq<nat>)
    requires xs != []
  {
    if xs[0] == 0 then xs[|xs| - 1] == 0 else last == 0 || last >= xs[0]
  }

  lemma SnapshotMeasures(s: Snapshots, steps: seq<Action>, depth: nat)
    requires Coherent(s) && s.recording && s.records[0].depth == depth && s.records[0].gasUsed == 0
    requires Opcodes(steps) && SpentAt(steps, depth) != [] && Growing(SpentAt(steps, depth))
    ensures
      var xs, t := SpentAt(steps, depth), ActAll(s, steps);
      |t.records| == 1 && (t.records[0].gasUsed == xs[|xs| - 1] - xs[0] <==> Exact(s.lastGasUsed, xs))
  {
    Telescopes(s, steps, depth);
    FirstPositiveIs(SpentAt(steps, depth));
  }

  lemma {:induction false} ActConcat(s: Snapshots, acts: seq<Action>, more: seq<Action>)
    ensures ActAll(s, acts + more) == ActAll(ActAll(s, acts), more)
  {
    if more == [] {
      assert acts + more == acts;
    } else {
      var n := |more| - 1;
      ActConcat(s, acts, more[..n]);
      assert (acts + more)[..|acts| + n] == acts + more[..n];
    }
  }

  lemma Started(acts: seq<Action>, group: string, name: string, depth: nat)
    requires ActAll(EMPTY, acts).active.None?
    ensures
      var last := ActAll(EMPTY, acts).lastGasUsed;
      ActAll(EMPTY, acts + [StartSnap(group, name, depth)]) ==
      Snapshots(Some((group, name)), true, last, [GasRecord(group, name, 0, depth)])
  {
    SnapshotsCoherent(acts);
    assert (acts + [StartSnap(group, name, depth)])[..|acts|] == acts;
    assert [] + [GasRecord(group, name, 0, depth)] == [GasRecord(group, name, 0, depth)];
  }

  /** The answer to a stop given at once after `acts`. */
  function Reported(acts: seq<Action>, group: Option<string>, name: Option<string>): Result<nat, StopError> {
    SnapshotStopped(ActAll(EMPTY, acts), group, name).1
  }

  lemma ReportsRecord(acts: seq<Action>, group: string, name: string, depth: nat, steps: seq<Action>)
    requires ActAll(EMPTY, acts).active.None? && Opcodes(steps) && Growing(SpentAt(steps, depth))
    ensures
      var xs, whole := SpentAt(steps, depth), acts + [StartSnap(group, name, depth)] + steps;
      && Reported(whole, None, None) == Reported(whole, Some(group), Some(name))
      && Reads(ActAll(EMPTY, acts).lastGasUsed, ActAll(EMPTY, whole), xs, depth)
      && var charged := if xs == [] then 0 else Charged(ActAll(EMPTY, acts).lastGasUsed, xs);
      Reported(whole, None, None) == Ok(if charged > 171 then charged - 171 else 0)
  {
    var before := acts + [StartSnap(group, name, depth)];
    var whole := before + steps;
    Started(acts, group, name, depth);
    ActConcat(EMPTY, before, steps);
    Telescopes(ActAll(EMPTY, before), steps, depth);
    ActiveStays(ActAll(EMPTY, before), steps);
    StopEndsTheActive(whole, None, None);
    StopEndsTheActive(whole, Some(group), Some(name));
  }

  lemma {:induction false} ActiveStays(s: Snapshots, steps: seq<Action>)
    requires Opcodes(steps)
    ensures ActAll(s, steps).active == s.active
  {
    if steps != [] { ActiveStays(s, steps[..|steps| - 1]); }
  }

  /** After any run of the cheatcodes with nothing active, a snapshot that is started, sees the
      opcodes `steps` and is stopped, by its name or not, answers what its frame spent between its
      first and last step less 171, or zero, wherever it measures exactly. */
  lemma SnapshotReports(acts: seq<Action>, group: string, name: string, depth: nat, steps: seq<Action>)
    requires ActAll(EMPTY, acts).active.None? && Opcodes(steps)
    requires SpentAt(steps, depth) != [] && Growing(SpentAt(steps, depth))
    ensures
      var xs, whole := SpentAt(steps, depth), acts + [StartSnap(group, name, depth)] + steps;
      && Reported(whole, None, None) == Reported(whole, Some(group), Some(name))
      && (Exact(ActAll(EMPTY, acts).lastGasUsed, xs) ==>
            var x := xs[|xs| - 1] - xs[0];
            Reported(whole, None, None) == Ok(if x > 171 then x - 171 else 0))
  {
    var xs := SpentAt(steps, depth);
    ReportsRecord(acts, group, name, depth, steps);
    FirstPositiveIs(xs);
  }

  lemma SpentTwice(depth: nat, x: nat, y: nat)
    ensures SpentAt([Opcode(depth, x, true), Opcode(depth, y, true)], depth) == [x, y]
  {
    var steps := [Opcode(depth, x, true), Opcode(depth, y, true)];
    assert steps[..1] == [Opcode(depth, x, true)] && steps[..1][..0] == [] && SpentAt([], depth) == [];
    assert SpentAt(steps[..1], depth) == [x];
  }

  /** The zero case is reached: a first snapshot with readings 0 and `y`, as in a frame entered
      while gas is paused and resumed later, answers zero. */
  lemma ZeroStartUncharged(group: string, name: string, depth: nat, y: nat)
    requires 0 < y <= U64_MAX
    ensures
      var steps := [Opcode(depth, 0, true), Opcode(depth, y, true)];
      && SpentAt(steps, depth) == [0, y]
      && Reported([] + [StartSnap(group, name, depth)] + steps, None, None) == Ok(0)
  {
    var steps := [Opcode(depth, 0, true), Opcode(depth, y, true)];
    SpentTwice(depth, 0, y);
    assert [0, y][..1] == [0] && [0][..0] == [] && FirstPositive([0]) == 0 && FirstPositive([0, y]) == y;
    ReportsRecord([], group, name, depth, steps);
  }

  function FirstSnapshot(group: string, name: string, depth: nat, spent: nat): seq<Action> {
    [StartSnap(group, name, depth), Opcode(depth, spent, true), StopSnap(None, None)]
  }

  lemma AfterFirst(group: string, name: string, depth: nat, spent: nat)
    ensures ActAll(EMPTY, FirstSnapshot(group, name, depth, spent)) == Snapshots(None, false, spent, [])
  {
    var acts := FirstSnapshot(group, name, depth, spent);
    assert acts[..2][..1] == acts[..1] && acts[..1][..0] == [];
    var s1 := Act(EMPTY, acts[0]);
    assert ActAll(EMPTY, acts[..1]) == Act(ActAll(EMPTY, acts[..1][..0]), acts[0]) == s1;
    var s2 := Act(s1, acts[1]);
    assert ActAll(EMPTY, acts[..2]) == s2;
    OneRecordStep(s1, depth, spent);
    CoherentStop(s2, None, None);
  }

  /** The other case is reached: a second snapshot at the same depth whose only reading is `y`
      answers the gas since the reading `x` at which the first one stopped, less 171. */
  lemma StaleReadingCharged(group: string, name: string, depth: nat, x: nat, y: nat)
    requires 0 < x && x + 171 < y <= U64_MAX
    ensures
      var steps := [Opcode(depth, y, true)];
      && SpentAt(steps, depth) == [y]
      && Reported(FirstSnapshot(group, name, depth, x) + [StartSnap(group, name, depth)] + steps, None, None) == Ok(y - x - 171)
  {
    var steps := [Opcode(depth, y, true)];
    AfterFirst(group, name, depth, x);
    assert steps[..0] == [] && SpentAt([], depth) == [];
    ChargedFirst(x, y);
    ReportsRecord(FirstSnapshot(group, name, depth, x), group, name, depth, steps);
  }
}
