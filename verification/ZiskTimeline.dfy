/** The ZisK mapper: every record of every task of a job, placed on the proof
    clock either over its own worker stamps or over its round trip. */
module ZiskTimeline {
  import opened Wrappers
  import opened Timeline
  import StableSort

  const EXECUTE := 0
  const WITNESS := 2
  const RECOMPUTE := 3
  const RECURSION_WITNESS := 4
  const AGGREGATION_WITNESS := 5
  const COMMIT := 7
  const BASIC := 8
  const COMPRESSOR := 9
  const RECURSIVE1 := 10
  const RECURSIVE2 := 11
  const KINDS := 14

  /** The kind of every proof type, in type order. Two types are not drawn. */
  const PROOF_TYPE_KINDS: seq<Option<nat>> := [
    Some(8), Some(9), Some(10), Some(11), Some(12), Some(13), None, None,
    Some(2), Some(7), Some(0), Some(1), Some(6), Some(3), Some(4), Some(5)]

  const RECURSIVE2_TYPE := 3
  const AGGREGATION_WITNESS_TYPE := 15

  /** The sections of one record, after the three of the executor. */
  const PROOF_LABELS: seq<string> := [
    "Prepare Trace", "Commit Stage 1", "Calculate Accumulation Polynomials", "Calculate Intermediate Polynomials",
    "Commit Stage 2", "Quotient", "Evaluations", "FRI", "Load Custom Commits", "Trace Upload", "Load Const Tree",
    "Proof Readback", "Trace Unpack", "Compute LDE and Merkle", "Proof Write", "Witness Expansion", "Stream Wait",
    "Root Readback", "Circom Witness", "Prepare Witness Generation", "Witness Generation", "Reload Fixed Pols",
    "Harvest Wait", "Launch Prologue", "FFI Prologue", "Publics Staging", "GPU Enqueue Gap"]

  const EXECUTOR_LABELS := 3
  const TRANSPORT := 30
  const LABELS := 31

  datatype Record = Record(id: nat, proofType: nat, airName: string, airgroupId: nat, start: int, end: int,
                  breakdownMs: map<string, nat>)

  datatype Phase = Contributions | Prove | Recurse | OtherPhase

  /** A coordinator start of 0 is absent. The coordinator stamps are on the clock
      of the proof start, the others on that of the worker. */
  datatype TaskTiming = TaskTiming(
    workerId: string, phase: Phase, records: seq<Record>, executorMs: seq<nat>,
    coordinatorStart: int, coordinatorEnd: int, workerStart: int, workerEnd: int)

  datatype Fault = UnmappedPhase | UnmappedType(proofType: nat) | Unlisted(worker: string)

  // ---------- Kinds and ids ----------

  function KindOf(proofType: nat): Option<nat> {
    if proofType >= |PROOF_TYPE_KINDS| then None else PROOF_TYPE_KINDS[proofType]
  }

  /** Every kind is that of exactly one proof type. */
  lemma KindsAreDistinct(a: nat, b: nat)
    requires KindOf(a).Some? && KindOf(b).Some?
    ensures KindOf(a).value < KINDS && (KindOf(a) == KindOf(b) <==> a == b)
    ensures KindOf(a).value == RECURSIVE2 <==> a == RECURSIVE2_TYPE
    ensures KindOf(a).value == AGGREGATION_WITNESS <==> a == AGGREGATION_WITNESS_TYPE
  {
  }

  function ProofId(kind: nat, record: Record, withAirgroup: bool): TaskId {
    if kind in {WITNESS, COMMIT, RECOMPUTE, RECURSION_WITNESS, BASIC, COMPRESSOR, RECURSIVE1}
      then Instance(record.airName, record.id)
    else if kind in {AGGREGATION_WITNESS, RECURSIVE2}
      then Fold(if withAirgroup then Some(record.airgroupId) else None, record.id)
    else NoId
  }

  /** Some recursive2 record of the job, as the task i and its record j. */
  ghost predicate IsRecursive2(tasks: seq<TaskTiming>, i: nat, j: nat) {
    i < |tasks| && j < |tasks[i].records| && tasks[i].records[j].proofType == RECURSIVE2_TYPE
  }

  function AirgroupsIn(records: seq<Record>, count: nat): set<nat>
    requires count <= |records|
  {
    if count == 0 then {}
    else AirgroupsIn(records, count - 1)
         + (if records[count - 1].proofType == RECURSIVE2_TYPE then {records[count - 1].airgroupId} else {})
  }

  function Airgroups(tasks: seq<TaskTiming>, count: nat): set<nat>
    requires count <= |tasks|
  {
    if count == 0 then {}
    else Airgroups(tasks, count - 1) + AirgroupsIn(tasks[count - 1].records, |tasks[count - 1].records|)
  }

  method FoldsManyAirgroups(tasks: seq<TaskTiming>) returns (many: bool)
    ensures many == (|Airgroups(tasks, |tasks|)| > 1)
  {
    var airgroups: set<nat> := {};
    for i := 0 to |tasks|
      invariant airgroups == Airgroups(tasks, i)
    {
      var records := tasks[i].records;
      for j := 0 to |records|
        invariant airgroups == Airgroups(tasks, i) + AirgroupsIn(records, j)
      {
        if records[j].proofType == RECURSIVE2_TYPE {
          airgroups := airgroups + {records[j].airgroupId};
        }
      }
    }
    return |airgroups| > 1;
  }

  lemma {:induction false} AirgroupsInAreExact(records: seq<Record>, count: nat, airgroup: nat)
    requires count <= |records|
    ensures airgroup in AirgroupsIn(records, count) <==>
              exists j :: 0 <= j < count && records[j].proofType == RECURSIVE2_TYPE && records[j].airgroupId == airgroup
  {
    if count > 0 { AirgroupsInAreExact(records, count - 1, airgroup); }
  }

  /** Some recursive2 record of the leading tasks folds this airgroup. */
  ghost predicate FoldsAirgroup(tasks: seq<TaskTiming>, count: nat, airgroup: nat) {
    exists i: nat, j: nat :: i < count && IsRecursive2(tasks, i, j) && tasks[i].records[j].airgroupId == airgroup
  }

  lemma {:induction false} AirgroupsAreExact(tasks: seq<TaskTiming>, count: nat, airgroup: nat)
    requires count <= |tasks|
    ensures airgroup in Airgroups(tasks, count) <==> FoldsAirgroup(tasks, count, airgroup)
  {
    if count > 0 {
      var last := tasks[count - 1].records;
      AirgroupsAreExact(tasks, count - 1, airgroup);
      AirgroupsInAreExact(last, |last|, airgroup);
      hide AirgroupsIn;
      if airgroup in AirgroupsIn(last, |last|) {
        var j: nat :| 0 <= j < |last| && last[j].proofType == RECURSIVE2_TYPE && last[j].airgroupId == airgroup;
        assert IsRecursive2(tasks, count - 1, j);
      }
    }
  }

  /** Recursive2 records of two airgroups. */
  ghost predicate FoldsTwoAirgroups(tasks: seq<TaskTiming>) {
    exists a: nat, b: nat :: a != b && FoldsAirgroup(tasks, |tasks|, a) && FoldsAirgroup(tasks, |tasks|, b)
  }

  lemma ManyIsTwo(tasks: seq<TaskTiming>)
    ensures |Airgroups(tasks, |tasks|)| > 1 <==> FoldsTwoAirgroups(tasks)
  {
    var airgroups := Airgroups(tasks, |tasks|);
    forall airgroup ensures airgroup in airgroups <==> FoldsAirgroup(tasks, |tasks|, airgroup) {
      AirgroupsAreExact(tasks, |tasks|, airgroup);
    }
    hide Airgroups, FoldsAirgroup;
    if |airgroups| > 1 {
      var a :| a in airgroups;
      assert |airgroups - {a}| > 0;
      var b :| b in airgroups - {a};
      assert FoldsAirgroup(tasks, |tasks|, a) && FoldsAirgroup(tasks, |tasks|, b);
    } else if FoldsTwoAirgroups(tasks) {
      TwoAreMany(tasks, airgroups);
    }
  }

  lemma TwoAreMany(tasks: seq<TaskTiming>, airgroups: set<nat>)
    requires FoldsTwoAirgroups(tasks)
    requires forall airgroup :: FoldsAirgroup(tasks, |tasks|, airgroup) ==> airgroup in airgroups
    ensures |airgroups| > 1
  {
    hide FoldsAirgroup;
    var a: nat, b: nat :| a != b && FoldsAirgroup(tasks, |tasks|, a) && FoldsAirgroup(tasks, |tasks|, b);
    SubsetIsSmaller({a, b}, airgroups);
  }

  /** A record that gets a fold id, as the task i and its record j. */
  ghost predicate IsFold(tasks: seq<TaskTiming>, i: nat, j: nat) {
    && i < |tasks| && j < |tasks[i].records|
    && tasks[i].records[j].proofType in {RECURSIVE2_TYPE, AGGREGATION_WITNESS_TYPE}
  }

  /** The id of a record in the timeline of its job. */
  function IdOf(tasks: seq<TaskTiming>, record: Record): TaskId
    requires KindOf(record.proofType).Some?
  {
    ProofId(KindOf(record.proofType).value, record, |Airgroups(tasks, |tasks|)| > 1)
  }

  /** Two folds of either kind have one id exactly when their indices agree and so
      do their airgroups, unless no two airgroups have recursive2 records. */
  lemma FoldsAreToldApart(tasks: seq<TaskTiming>, i: nat, j: nat, k: nat, l: nat)
    requires IsFold(tasks, i, j) && IsFold(tasks, k, l)
    ensures var a, b := tasks[i].records[j], tasks[k].records[l];
            IdOf(tasks, a) == IdOf(tasks, b) <==>
              a.id == b.id && (a.airgroupId == b.airgroupId || !FoldsTwoAirgroups(tasks))
  {
    ManyIsTwo(tasks);
    hide FoldsTwoAirgroups, Airgroups;
    KindsAreDistinct(tasks[i].records[j].proofType, tasks[k].records[l].proofType);
  }

  /** So leaving the airgroup out never merges two recursive2 folds. */
  lemma Recursive2FoldsAreToldApart(tasks: seq<TaskTiming>, i: nat, j: nat, k: nat, l: nat)
    requires IsRecursive2(tasks, i, j) && IsRecursive2(tasks, k, l)
    ensures var a, b := tasks[i].records[j], tasks[k].records[l];
            IdOf(tasks, a) == IdOf(tasks, b) <==> a.id == b.id && a.airgroupId == b.airgroupId
  {
    FoldsAreToldApart(tasks, i, j, k, l);
    var a, b := tasks[i].records[j].airgroupId, tasks[k].records[l].airgroupId;
    assert FoldsAirgroup(tasks, |tasks|, a) && FoldsAirgroup(tasks, |tasks|, b);
  }

  /** It does merge two aggregation witnesses, of the airgroups 1 and 2. */
  lemma AggregationWitnessesMerge()
    ensures var a := Record(3, AGGREGATION_WITNESS_TYPE, "", 1, 0, 1, map[]);
            var b := Record(3, AGGREGATION_WITNESS_TYPE, "", 2, 0, 1, map[]);
            var tasks := [TaskTiming("", Prove, [a, b], [0, 0, 0], 0, 0, 0, 0)];
            a.airgroupId != b.airgroupId && IdOf(tasks, a) == IdOf(tasks, b) == Fold(None, 3)
  {
    var a := Record(3, AGGREGATION_WITNESS_TYPE, "", 1, 0, 1, map[]);
    var b := Record(3, AGGREGATION_WITNESS_TYPE, "", 2, 0, 1, map[]);
    var tasks := [TaskTiming("", Prove, [a, b], [0, 0, 0], 0, 0, 0, 0)];
    assert IsFold(tasks, 0, 0) && IsFold(tasks, 0, 1);
    assert tasks[0].records[0] == a && tasks[0].records[1] == b;
    forall airgroup ensures !FoldsAirgroup(tasks, |tasks|, airgroup) {
    }
    ManyIsTwo(tasks);
    FoldsAreToldApart(tasks, 0, 0, 0, 1);
  }

  // ---------- Sections ----------

  /** The values from index on that are not zero, numbered from the offset. */
  function NonZero(values: seq<nat>, index: nat, offset: nat): Breakdown
    requires index <= |values|
    decreases |values| - index
  {
    if index == |values| then []
    else (if values[index] > 0 then [(offset + index, values[index])] else []) + NonZero(values, index + 1, offset)
  }

  /** Every value above zero has its section, in order, and there is no other. */
  lemma {:induction false} NonZeroIsExact(values: seq<nat>, index: nat, offset: nat)
    requires index <= |values|
    ensures IsBreakdown(NonZero(values, index, offset), offset + |values|)
    ensures forall k :: 0 <= k < |NonZero(values, index, offset)| ==>
            offset + index <= NonZero(values, index, offset)[k].0
    ensures forall section :: section in NonZero(values, index, offset) <==>
              offset + index <= section.0 < offset + |values| && values[section.0 - offset] > 0
                && section.1 == values[section.0 - offset]
    decreases |values| - index
  {
    if index < |values| {
      NonZeroIsExact(values, index + 1, offset);
      var first := if values[index] > 0 then [(offset + index, values[index])] else [];
      var rest := NonZero(values, index + 1, offset);
      assert NonZero(values, index, offset) == first + rest;
      hide NonZero;
    }
  }

  /** What the labels measure in the sections, zero where a label is missing. */
  function Measured(labels: seq<string>, sections: map<string, nat>): seq<nat> {
    seq(|labels|, i requires 0 <= i < |labels| => if labels[i] in sections then sections[labels[i]] else 0)
  }

  method MapBreakdown(executorMs: seq<nat>) returns (breakdown: Breakdown)
    ensures breakdown == NonZero(executorMs, 0, 0)
  {
    breakdown := [];
    for index := 0 to |executorMs|
      invariant breakdown + NonZero(executorMs, index, 0) == NonZero(executorMs, 0, 0)
    {
      if executorMs[index] > 0 {
        breakdown := breakdown + [(index, executorMs[index])];
      }
    }
  }

  method MapProofBreakdown(labels: seq<string>, sections: map<string, nat>, offset: nat) returns (breakdown: Breakdown)
    ensures breakdown == NonZero(Measured(labels, sections), 0, offset)
  {
    breakdown := [];
    ghost var measured := Measured(labels, sections);
    for index := 0 to |labels|
      invariant breakdown + NonZero(measured, index, offset) == NonZero(measured, 0, offset)
    {
      var duration := if labels[index] in sections then sections[labels[index]] else 0;
      if duration > 0 {
        breakdown := breakdown + [(offset + index, duration)];
      }
    }
  }

  // ---------- Bars ----------

  predicate RoundTrip(task: TaskTiming) {
    |task.records| == 1 && task.coordinatorStart != 0
  }

  function TransportMs(task: TaskTiming): int {
    NetworkTransportMs(task.coordinatorStart, task.workerStart, task.workerEnd, task.coordinatorEnd)
  }

  function Sections(task: TaskTiming, record: Record): Breakdown {
    (if KindOf(record.proofType) == Some(EXECUTE) then NonZero(task.executorMs, 0, 0) else [])
    + NonZero(Measured(PROOF_LABELS, record.breakdownMs), 0, EXECUTOR_LABELS)
    + (if RoundTrip(task) && TransportMs(task) > 0 then [(TRANSPORT, TransportMs(task))] else [])
  }

  function Bar(task: TaskTiming, record: Record, proofStartMs: int, withAirgroup: bool): Placement<string>
    requires KindOf(record.proofType).Some?
  {
    var kind := KindOf(record.proofType).value;
    var startMs := if RoundTrip(task) then task.coordinatorStart else record.start;
    var endMs := if RoundTrip(task) then task.coordinatorEnd else record.end;
    Placed(kind, task.workerId, ProofId(kind, record, withAirgroup), endMs - proofStartMs, endMs - startMs,
      Sections(task, record))
  }

  /** A bar spans its two stamps, clamped to the proof clock: those of the round
      trip of a dispatched task of one record, else those of its record. */
  lemma BarSpansItsStamps(task: TaskTiming, record: Record, proofStartMs: int, withAirgroup: bool, ms: int)
    requires KindOf(record.proofType).Some?
    ensures var bar := Bar(task, record, proofStartMs, withAirgroup);
            var startMs, endMs := if RoundTrip(task) then task.coordinatorStart else record.start,
                                  if RoundTrip(task) then task.coordinatorEnd else record.end;
            bar.Covers(ms) <==> Max(startMs - proofStartMs, 0) <= ms < Max(endMs - proofStartMs, 0)
  {
  }

  /** A bar has the kind of its record's type and the worker of its task. The
      records of an instance, and no others, are named by their air and id. */
  lemma BarIsOfItsRecord(task: TaskTiming, record: Record, proofStartMs: int, withAirgroup: bool)
    requires KindOf(record.proofType).Some?
    ensures var bar := Bar(task, record, proofStartMs, withAirgroup);
            && bar.worker == task.workerId
            && match record.proofType
               case 0 => bar.kind == 8 && bar.id == Instance(record.airName, record.id)
               case 1 => bar.kind == 9 && bar.id == Instance(record.airName, record.id)
               case 2 => bar.kind == 10 && bar.id == Instance(record.airName, record.id)
               case 3 =>
                 bar.kind == 11 && bar.id == Fold(if withAirgroup then Some(record.airgroupId) else None, record.id)
               case 4 => bar.kind == 12 && bar.id == NoId
               case 5 => bar.kind == 13 && bar.id == NoId
               case 8 => bar.kind == 2 && bar.id == Instance(record.airName, record.id)
               case 9 => bar.kind == 7 && bar.id == Instance(record.airName, record.id)
               case 10 => bar.kind == 0 && bar.id == NoId
               case 11 => bar.kind == 1 && bar.id == NoId
               case 12 => bar.kind == 6 && bar.id == NoId
               case 13 => bar.kind == 3 && bar.id == Instance(record.airName, record.id)
               case 14 => bar.kind == 4 && bar.id == Instance(record.airName, record.id)
               case 15 =>
                 bar.kind == 5 && bar.id == Fold(if withAirgroup then Some(record.airgroupId) else None, record.id)
               case _ => false
  {
    hide Sections;
  }

  /** Two instance records have one id exactly when they are of one instance, of
      whatever kinds they are. */
  lemma InstancesAreToldApart(tasks: seq<TaskTiming>, a: Record, b: Record)
    requires a.proofType in {0, 1, 2, 8, 9, 13, 14} && b.proofType in {0, 1, 2, 8, 9, 13, 14}
    ensures IdOf(tasks, a) == IdOf(tasks, b) <==> a.airName == b.airName && a.id == b.id
  {
    hide Airgroups;
  }

  /** The sections of a bar are the nonzero durations of the executor, on an
      execution only, those of its record, and a transport of a round trip. */
  lemma BarSectionsAre(task: TaskTiming, record: Record, proofStartMs: int, withAirgroup: bool, section: (nat, int))
    requires KindOf(record.proofType).Some? && |task.executorMs| == 3
    ensures section in Bar(task, record, proofStartMs, withAirgroup).breakdown <==>
              || (record.proofType == 10 && section.0 < 3 && section.1 == task.executorMs[section.0] > 0)
              || (3 <= section.0 < 30 && PROOF_LABELS[section.0 - 3] in record.breakdownMs
                  && section.1 == record.breakdownMs[PROOF_LABELS[section.0 - 3]] > 0)
              || (|task.records| == 1 && task.coordinatorStart != 0 && section == (30, TransportMs(task))
                  && section.1 > 0)
  {
    ExecuteIsTen(record.proofType);
    BarHasSections(task, record, proofStartMs, withAirgroup);
    hide NonZero, KindOf, Bar, TransportMs, Measured;
    NonZeroHolds(task.executorMs, 0, section);
    MeasuredHolds(PROOF_LABELS, record.breakdownMs, EXECUTOR_LABELS, section);
    assert |PROOF_LABELS| == 27;
  }

  lemma ExecuteIsTen(proofType: nat)
    ensures KindOf(proofType) == Some(EXECUTE) <==> proofType == 10
  {
  }

  lemma BarHasSections(task: TaskTiming, record: Record, proofStartMs: int, withAirgroup: bool)
    requires KindOf(record.proofType).Some?
    ensures Bar(task, record, proofStartMs, withAirgroup).breakdown == Sections(task, record)
  {
    hide Sections, KindOf, ProofId;
  }

  lemma MeasuredHolds(labels: seq<string>, sections: map<string, nat>, offset: nat, section: (nat, int))
    ensures section in NonZero(Measured(labels, sections), 0, offset) <==>
              && offset <= section.0 < offset + |labels| && labels[section.0 - offset] in sections
              && section.1 == sections[labels[section.0 - offset]] > 0
  {
    NonZeroHolds(Measured(labels, sections), offset, section);
  }

  lemma NonZeroHolds(values: seq<nat>, offset: nat, section: (nat, int))
    ensures section in NonZero(values, 0, offset) <==>
              offset <= section.0 < offset + |values| && section.1 == values[section.0 - offset] > 0
  {
    NonZeroIsExact(values, 0, offset);
  }

  /** The first record of the leading count whose type has no kind. */
  function TypeFault(records: seq<Record>, count: nat): Option<Fault>
    requires count <= |records|
  {
    if count == 0 then None
    else
      var earlier := TypeFault(records, count - 1);
      if earlier.Some? then earlier
      else if KindOf(records[count - 1].proofType).None? then Some(UnmappedType(records[count - 1].proofType)) else None
  }

  function TaskFault(task: TaskTiming): Option<Fault> {
    if task.phase.OtherPhase? then Some(UnmappedPhase) else TypeFault(task.records, |task.records|)
  }

  function FirstFault(tasks: seq<TaskTiming>, count: nat): Option<Fault>
    requires count <= |tasks|
  {
    if count == 0 then None
    else
      var earlier := FirstFault(tasks, count - 1);
      if earlier.Some? then earlier else TaskFault(tasks[count - 1])
  }

  function TaskBars(task: TaskTiming, count: nat, proofStartMs: int, withAirgroup: bool): seq<Placement<string>>
    requires count <= |task.records| && TypeFault(task.records, count).None?
  {
    if count == 0 then []
    else
      TaskBars(task, count - 1, proofStartMs, withAirgroup)
      + [Bar(task, task.records[count - 1], proofStartMs, withAirgroup)]
  }

  function Placements(tasks: seq<TaskTiming>, count: nat, proofStartMs: int, withAirgroup: bool): seq<Placement<string>>
    requires count <= |tasks| && FirstFault(tasks, count).None?
  {
    if count == 0 then []
    else
      var last := tasks[count - 1];
      Placements(tasks, count - 1, proofStartMs, withAirgroup)
        + TaskBars(last, |last.records|, proofStartMs, withAirgroup)
  }

  // ---------- Every record has its bar ----------

  function CountRecords(tasks: seq<TaskTiming>, count: nat): nat
    requires count <= |tasks|
  {
    if count == 0 then 0 else CountRecords(tasks, count - 1) + |tasks[count - 1].records|
  }

  /** The bars of all records are placed in the order of tasks and records. */
  lemma {:induction false} RecordIsPlaced(tasks: seq<TaskTiming>, count: nat, proofStartMs: int, withAirgroup: bool,
                                          i: nat, j: nat)
    requires count <= |tasks| && FirstFault(tasks, count).None? && i < count && j < |tasks[i].records|
    ensures KindOf(tasks[i].records[j].proofType).Some?
    ensures var placements := Placements(tasks, count, proofStartMs, withAirgroup);
            && |placements| == CountRecords(tasks, count) && CountRecords(tasks, i) + j < |placements|
            && placements[CountRecords(tasks, i) + j] == Bar(tasks[i], tasks[i].records[j], proofStartMs, withAirgroup)
  {
    hide Bar;
    var last := count - 1;
    RecordsAreCounted(tasks, last, proofStartMs, withAirgroup);
    TaskRecordIsPlaced(tasks[last], |tasks[last].records|, proofStartMs, withAirgroup);
    hide TaskBars, KindOf;
    if i < last { RecordIsPlaced(tasks, last, proofStartMs, withAirgroup, i, j); }
  }

  lemma {:induction false} RecordsAreCounted(tasks: seq<TaskTiming>, count: nat, proofStartMs: int, withAirgroup: bool)
    requires count <= |tasks| && FirstFault(tasks, count).None?
    ensures |Placements(tasks, count, proofStartMs, withAirgroup)| == CountRecords(tasks, count)
  {
    if count > 0 {
      var last := tasks[count - 1];
      RecordsAreCounted(tasks, count - 1, proofStartMs, withAirgroup);
      TaskRecordIsPlaced(last, |last.records|, proofStartMs, withAirgroup);
    }
  }

  lemma {:induction false} TaskRecordIsPlaced(task: TaskTiming, count: nat, proofStartMs: int, withAirgroup: bool)
    requires count <= |task.records| && TypeFault(task.records, count).None?
    ensures |TaskBars(task, count, proofStartMs, withAirgroup)| == count
    ensures forall j :: 0 <= j < count ==> KindOf(task.records[j].proofType).Some?
    ensures forall j :: 0 <= j < count ==>
              TaskBars(task, count, proofStartMs, withAirgroup)[j]
              == Bar(task, task.records[j], proofStartMs, withAirgroup)
  {
    hide Bar;
    if count > 0 { TaskRecordIsPlaced(task, count - 1, proofStartMs, withAirgroup); }
  }

  // ---------- The workers ----------

  /** By rank, then by name. */
  predicate WorkerBefore(rank: string -> int, a: string, b: string) {
    rank(a) < rank(b) || (rank(a) == rank(b) && NameBefore(a, b))
  }

  predicate NameBefore(a: string, b: string) {
    a == [] || (b != [] && (a[0] < b[0] || (a[0] == b[0] && NameBefore(a[1..], b[1..]))))
  }

  lemma {:induction false} NamesAreOrdered(a: string, b: string)
    ensures NameBefore(a, b) || NameBefore(b, a)
    ensures NameBefore(a, b) && NameBefore(b, a) ==> a == b
  {
    if a != [] && b != [] {
      NamesAreOrdered(a[1..], b[1..]);
      assert a == [a[0]] + a[1..] && b == [b[0]] + b[1..];
    }
  }

  lemma {:induction false} NamesChain(a: string, b: string, c: string)
    requires NameBefore(a, b) && NameBefore(b, c)
    ensures NameBefore(a, c)
  {
    if a != [] && b != [] && a[0] == b[0] && c != [] && b[0] == c[0] {
      NamesChain(a[1..], b[1..], c[1..]);
    }
  }

  function Ordered(rank: string -> int): (string, string) -> bool {
    (a: string, b: string) => WorkerBefore(rank, a, b)
  }

  lemma OrderIsTotal(rank: string -> int)
    ensures StableSort.TotalPreorder(Ordered(rank))
    ensures forall a, b :: Ordered(rank)(a, b) && Ordered(rank)(b, a) ==> a == b
  {
    forall a: string, b: string
      ensures Ordered(rank)(a, b) || Ordered(rank)(b, a)
      ensures Ordered(rank)(a, b) && Ordered(rank)(b, a) ==> a == b
    {
      NamesAreOrdered(a, b);
    }
    forall a: string, b: string, c: string | Ordered(rank)(a, b) && Ordered(rank)(b, c) ensures Ordered(rank)(a, c) {
      if rank(a) == rank(b) == rank(c) { NamesChain(a, b, c); }
    }
  }

  function Named(tasks: seq<TaskTiming>, count: nat): set<string>
    requires count <= |tasks|
  {
    if count == 0 then {} else Named(tasks, count - 1) + {tasks[count - 1].workerId}
  }

  ghost predicate IsSorted(rank: string -> int, names: seq<string>) {
    forall i, j :: 0 <= i < j < |names| ==> WorkerBefore(rank, names[i], names[j]) && names[i] != names[j]
  }

  /** One registration per worker that a task names, its own host, in rank order. */
  ghost predicate AreRegistrations(rank: string -> int, tasks: seq<TaskTiming>,
                                   registrations: seq<Registration<string>>) {
    && IsSorted(rank, Keys(registrations))
    && (forall worker :: worker in Keys(registrations) <==> worker in Named(tasks, |tasks|))
    && (forall i :: 0 <= i < |registrations| ==> registrations[i].name == registrations[i].host == registrations[i].key)
  }

  function Keys(registrations: seq<Registration<string>>): seq<string> {
    seq(|registrations|, i requires 0 <= i < |registrations| => registrations[i].key)
  }

  method MapRegistrations(rank: string -> int, tasks: seq<TaskTiming>)
    returns (registrations: seq<Registration<string>>)
    ensures AreRegistrations(rank, tasks, registrations)
  {
    hide WorkerBefore, NameBefore, StableSort.TotalPreorder;
    var named: set<string> := {};
    for i := 0 to |tasks|
      invariant named == Named(tasks, i)
    {
      named := named + {tasks[i].workerId};
    }
    var keys := KeysOf(named);
    var workerIds := StableSort.Sort(Ordered(rank), keys);
    SortedKeys(rank, named, keys);
    registrations := seq(|workerIds|, i requires 0 <= i < |workerIds| =>
      Registration(workerIds[i], workerIds[i], workerIds[i]));
    assert Keys(registrations) == workerIds;
  }

  /** The names in whatever order a map yields them. */
  method KeysOf(named: set<string>) returns (keys: seq<string>)
    ensures Enumerates(keys, named)
  {
    keys := [];
    var left := named;
    while left != {}
      invariant left <= named && Enumerates(keys, named - left)
      decreases left
    {
      var name :| name in left;
      left := left - {name};
      assert named - left == (named - (left + {name})) + {name};
      keys := keys + [name];
    }
    assert named - left == named;
  }

  ghost predicate Enumerates(keys: seq<string>, named: set<string>) {
    && (forall name :: name in keys <==> name in named)
    && (forall i, j :: 0 <= i < j < |keys| ==> keys[i] != keys[j])
  }

  lemma SortedKeys(rank: string -> int, named: set<string>, keys: seq<string>)
    requires Enumerates(keys, named)
    ensures var sorted := StableSort.Sort(Ordered(rank), keys);
            IsSorted(rank, sorted) && forall name :: name in sorted <==> name in named
  {
    var sorted := StableSort.Sort(Ordered(rank), keys);
    OrderIsTotal(rank);
    StableSort.SortIsStable(Ordered(rank), keys);
    hide WorkerBefore, NameBefore, StableSort.TotalPreorder, StableSort.Sort, StableSort.Peers;
    assert forall name :: name in sorted <==> name in multiset(sorted);
    assert forall name :: name in keys <==> name in multiset(keys);
    DistinctOnce(keys);
    forall i, j | 0 <= i < j < |sorted| ensures WorkerBefore(rank, sorted[i], sorted[j]) && sorted[i] != sorted[j] {
      assert Ordered(rank)(sorted[i], sorted[j]) == WorkerBefore(rank, sorted[i], sorted[j]);
      if sorted[i] == sorted[j] {
        TwiceIsTwo(sorted, i, j);
        assert false;
      }
    }
  }

  lemma {:induction false} DistinctOnce(keys: seq<string>)
    requires forall i, j :: 0 <= i < j < |keys| ==> keys[i] != keys[j]
    ensures forall name :: multiset(keys)[name] <= 1
  {
    if keys != [] {
      var n := |keys| - 1;
      DistinctOnce(keys[..n]);
      assert keys == keys[..n] + [keys[n]];
      assert keys[n] !in keys[..n];
    }
  }

  lemma TwiceIsTwo(names: seq<string>, i: nat, j: nat)
    requires i < j < |names| && names[i] == names[j]
    ensures multiset(names)[names[i]] >= 2
  {
    assert names == names[..i] + [names[i]] + names[i + 1..j] + [names[j]] + names[j + 1..];
  }

  /** The order in which a map yields the workers does not show: the tasks and
      the ranks decide the registrations. */
  lemma RegistrationsAreDetermined(rank: string -> int, tasks: seq<TaskTiming>, a: seq<Registration<string>>,
                                   b: seq<Registration<string>>)
    requires AreRegistrations(rank, tasks, a) && AreRegistrations(rank, tasks, b)
    ensures a == b
  {
    OrderIsTotal(rank);
    forall x: string, y: string | WorkerBefore(rank, x, y) && WorkerBefore(rank, y, x) ensures x == y {
      assert Ordered(rank)(x, y) && Ordered(rank)(y, x);
    }
    SortedIsUnique(rank, Keys(a), Keys(b));
    forall i | 0 <= i < |a| ensures a[i] == b[i] {
      assert Keys(a)[i] == a[i].key && Keys(b)[i] == b[i].key;
    }
  }

  lemma EmptyTogether(a: seq<string>, b: seq<string>)
    requires forall name :: name in a <==> name in b
    ensures a == [] <==> b == []
  {
    if a != [] { assert a[0] in a; }
    if b != [] { assert b[0] in b; }
  }

  lemma {:induction false} SortedIsUnique(rank: string -> int, a: seq<string>, b: seq<string>)
    requires forall x: string, y: string :: WorkerBefore(rank, x, y) && WorkerBefore(rank, y, x) ==> x == y
    requires IsSorted(rank, a) && IsSorted(rank, b)
    requires forall name :: name in a <==> name in b
    ensures a == b
  {
    hide WorkerBefore, NameBefore;
    EmptyTogether(a, b);
    if a != [] {
      assert a[0] in b && b[0] in a;
      var i :| 0 <= i < |b| && b[i] == a[0];
      var j :| 0 <= j < |a| && a[j] == b[0];
      assert a[0] == b[0];
      forall name ensures name in a[1..] <==> name in b[1..] {
        assert name in a <==> name == a[0] || name in a[1..];
        assert name in b <==> name == b[0] || name in b[1..];
        if name in a[1..] {
          var k :| 0 <= k < |a| - 1 && a[1..][k] == name;
          assert a[k + 1] == name;
        }
        if name in b[1..] {
          var k :| 0 <= k < |b| - 1 && b[1..][k] == name;
          assert b[k + 1] == name;
        }
      }
      SortedIsUnique(rank, a[1..], b[1..]);
      assert a == [a[0]] + a[1..] && b == [b[0]] + b[1..];
    }
  }

  /** Every worker is its own node, numbered from 1 in rank order. */
  lemma NodesFollowRank(rank: string -> int, tasks: seq<TaskTiming>, registrations: seq<Registration<string>>, i: nat)
    requires AreRegistrations(rank, tasks, registrations) && i < |registrations|
    ensures WorkersOf(registrations)[i].node == i + 1
  {
    NoHostYet(registrations, i);
    hide Hosts, WorkerBefore, Named;
    var first := FirstOfHost(registrations, i, 0);
    HostsDiffer(registrations, i);
    DistinctHosts(registrations, first);
  }

  lemma NoHostYet(registrations: seq<Registration<string>>, i: nat)
    requires i < |registrations|
    ensures registrations[i].host !in Hosts(registrations, 0)
  {
  }

  lemma HostsDiffer(registrations: seq<Registration<string>>, i: nat)
    requires i < |registrations|
    requires forall i, j :: 0 <= i < j < |registrations| ==> Keys(registrations)[i] != Keys(registrations)[j]
    requires forall i :: 0 <= i < |registrations| ==> registrations[i].host == registrations[i].key
    ensures forall j :: 0 <= j < i ==> registrations[j].host != registrations[i].host
  {
    forall j | 0 <= j < i ensures registrations[j].host != registrations[i].host {
      assert Keys(registrations)[j] != Keys(registrations)[i];
    }
  }

  lemma {:induction false} DistinctHosts(registrations: seq<Registration<string>>, count: nat)
    requires count <= |registrations|
    requires forall i, j :: 0 <= i < j < |registrations| ==> Keys(registrations)[i] != Keys(registrations)[j]
    requires forall i :: 0 <= i < |registrations| ==> registrations[i].host == registrations[i].key
    ensures |Hosts(registrations, count)| == count
  {
    if count > 0 {
      DistinctHosts(registrations, count - 1);
      HostHasAFirst(registrations, count - 1, registrations[count - 1].host);
      HostsDiffer(registrations, count - 1);
    }
  }

  // ---------- The mapper ----------

  /** The timeline of a job, none when there is nothing to draw, or the first
      fault in task and record order. */
  function Mapping(proofStart: Option<int>, tasks: seq<TaskTiming>,
                   registrations: seq<Registration<string>>): Result<Option<Pipeline>, Fault> {
    if proofStart.None? || tasks == [] then Ok(None)
    else
      match FirstFault(tasks, |tasks|)
      case Some(fault) => Err(fault)
      case None =>
        match TimelineOf(registrations, Placements(tasks, |tasks|, proofStart.value, |Airgroups(tasks, |tasks|)| > 1))
        case Err(worker) => Err(Unlisted(worker))
        case Ok(pipeline) => Ok(if pipeline.tasks == [] then None else Some(pipeline))
  }

  method PlaceProofs(builder: PipelineBuilder<string>, task: TaskTiming, proofStartMs: int, withAirgroup: bool)
    returns (fault: Option<Fault>)
    requires builder.Valid()
    modifies builder
    ensures builder.Valid() && builder.workers == old(builder.workers)
            && builder.workerIndex == old(builder.workerIndex)
    ensures fault == TypeFault(task.records, |task.records|)
    ensures fault.None? ==>
              builder.placements == old(builder.placements) + TaskBars(task, |task.records|, proofStartMs, withAirgroup)
  {
    hide PipelineBuilder.Valid, NonZero, Measured, KindOf, Placed, NetworkTransportMs, ProofId;
    var roundTrip := |task.records| == 1 && task.coordinatorStart != 0;
    for k := 0 to |task.records|
      invariant builder.Valid() && builder.workers == old(builder.workers)
                && builder.workerIndex == old(builder.workerIndex)
      invariant TypeFault(task.records, k).None?
      invariant builder.placements == old(builder.placements) + TaskBars(task, k, proofStartMs, withAirgroup)
    {
      var record := task.records[k];
      var kind := KindOf(record.proofType);
      if kind.None? {
        FaultStays(task.records, k + 1, |task.records|);
        return Some(UnmappedType(record.proofType));
      }
      var startMs, endMs := record.start, record.end;
      var breakdown := MapProofBreakdown(PROOF_LABELS, record.breakdownMs, EXECUTOR_LABELS);
      if kind.value == EXECUTE {
        var executor := MapBreakdown(task.executorMs);
        breakdown := executor + breakdown;
      }
      if roundTrip {
        startMs, endMs := task.coordinatorStart, task.coordinatorEnd;
        var transportMs := NetworkTransportMs(startMs, task.workerStart, task.workerEnd, endMs);
        if transportMs > 0 {
          breakdown := breakdown + [(TRANSPORT, transportMs)];
        }
      }
      assert breakdown == Sections(task, record);
      var _ := builder.Place(kind.value, task.workerId, ProofId(kind.value, record, withAirgroup),
        endMs - proofStartMs, endMs - startMs, breakdown);
    }
    return None;
  }

  lemma {:induction false} FaultStays(records: seq<Record>, k: nat, count: nat)
    requires k <= count <= |records| && TypeFault(records, k).Some?
    ensures TypeFault(records, count) == TypeFault(records, k)
  {
    if k < count { FaultStays(records, k, count - 1); }
  }

  lemma {:induction false} FirstFaultStays(tasks: seq<TaskTiming>, k: nat, count: nat)
    requires k <= count <= |tasks| && FirstFault(tasks, k).Some?
    ensures FirstFault(tasks, count) == FirstFault(tasks, k)
  {
    if k < count { FirstFaultStays(tasks, k, count - 1); }
  }

  method MapPipeline(rank: string -> int, proofStart: Option<int>, tasks: seq<TaskTiming>)
    returns (r: Result<Option<Pipeline>, Fault>)
    ensures forall registrations :: AreRegistrations(rank, tasks, registrations) ==>
            r == Mapping(proofStart, tasks, registrations)
  {
    hide PipelineBuilder.Valid, AreRegistrations, WorkersOf, IndexOf, Built, TaskBars, TypeFault;
    if proofStart.None? || tasks == [] { return Ok(None); }
    var registrations := MapRegistrations(rank, tasks);
    forall other | AreRegistrations(rank, tasks, other) ensures other == registrations {
      RegistrationsAreDetermined(rank, tasks, registrations, other);
    }
    var builder := new PipelineBuilder(registrations);
    ghost var workers, index := builder.workers, builder.workerIndex;
    var proofStartMs := proofStart.value;
    var withAirgroup := FoldsManyAirgroups(tasks);
    for k := 0 to |tasks|
      invariant builder.Valid() && builder.workers == workers && builder.workerIndex == index && fresh(builder)
      invariant FirstFault(tasks, k).None?
      invariant builder.placements == Placements(tasks, k, proofStartMs, withAirgroup)
    {
      var task := tasks[k];
      if task.phase.OtherPhase? {
        FirstFaultStays(tasks, k + 1, |tasks|);
        r := Err(UnmappedPhase);
        return;
      }
      var fault := PlaceProofs(builder, task, proofStartMs, withAirgroup);
      if fault.Some? {
        FirstFaultStays(tasks, k + 1, |tasks|);
        r := Err(fault.value);
        return;
      }
    }
    var built := builder.Pipeline();
    match built
    case Err(worker) => r := Err(Unlisted(worker));
    case Ok(pipeline) => r := Ok(if pipeline.tasks == [] then None else Some(pipeline));
  }

  // ---------- When a job has a timeline ----------

  ghost predicate IsMapped(task: TaskTiming) {
    !task.phase.OtherPhase? && forall j :: 0 <= j < |task.records| ==> KindOf(task.records[j].proofType).Some?
  }

  lemma {:induction false} TypeFaultIsExact(records: seq<Record>, count: nat)
    requires count <= |records|
    ensures TypeFault(records, count).None? <==> forall j :: 0 <= j < count ==> KindOf(records[j].proofType).Some?
  {
    if count > 0 { TypeFaultIsExact(records, count - 1); }
  }

  lemma {:induction false} FirstFaultIsExact(tasks: seq<TaskTiming>, count: nat)
    requires count <= |tasks|
    ensures FirstFault(tasks, count).None? <==> forall i :: 0 <= i < count ==> IsMapped(tasks[i])
  {
    if count > 0 {
      FirstFaultIsExact(tasks, count - 1);
      TypeFaultIsExact(tasks[count - 1].records, |tasks[count - 1].records|);
    }
  }

  lemma {:induction false} BarsHaveNamedWorkers(tasks: seq<TaskTiming>, count: nat, proofStartMs: int,
                                                withAirgroup: bool)
    requires count <= |tasks| && FirstFault(tasks, count).None?
    ensures forall k :: 0 <= k < |Placements(tasks, count, proofStartMs, withAirgroup)| ==>
              Placements(tasks, count, proofStartMs, withAirgroup)[k].worker in Named(tasks, count)
  {
    if count > 0 {
      BarsHaveNamedWorkers(tasks, count - 1, proofStartMs, withAirgroup);
      BarsHaveOneWorker(tasks[count - 1], |tasks[count - 1].records|, proofStartMs, withAirgroup);
    }
  }

  lemma {:induction false} BarsHaveOneWorker(task: TaskTiming, count: nat, proofStartMs: int, withAirgroup: bool)
    requires count <= |task.records| && TypeFault(task.records, count).None?
    ensures forall k :: 0 <= k < |TaskBars(task, count, proofStartMs, withAirgroup)| ==>
              TaskBars(task, count, proofStartMs, withAirgroup)[k].worker == task.workerId
  {
    if count > 0 { BarsHaveOneWorker(task, count - 1, proofStartMs, withAirgroup); }
  }

  /** The workers are read off the tasks, so no task is ever of an unlisted
      worker. The mapper fails exactly on an unmapped phase or proof type. */
  lemma FailsOnlyOnUnmapped(rank: string -> int, proofStart: Option<int>, tasks: seq<TaskTiming>,
                            registrations: seq<Registration<string>>)
    requires AreRegistrations(rank, tasks, registrations)
    ensures Mapping(proofStart, tasks, registrations).Err? <==>
              proofStart.Some? && tasks != [] && exists i :: 0 <= i < |tasks| && !IsMapped(tasks[i])
    ensures Mapping(proofStart, tasks, registrations).Err? ==>
            !Mapping(proofStart, tasks, registrations).error.Unlisted?
  {
    hide IsMapped, AreRegistrations, TypeFault, TimelineOf;
    FirstFaultIsExact(tasks, |tasks|);
    if proofStart.Some? && FirstFault(tasks, |tasks|).None? {
      var withAirgroup := |Airgroups(tasks, |tasks|)| > 1;
      EveryBarIsListed(rank, tasks, registrations, proofStart.value, withAirgroup);
      FailsOnUnlisted(registrations, Placements(tasks, |tasks|, proofStart.value, withAirgroup));
    } else if FirstFault(tasks, |tasks|).Some? {
      FaultIsNotUnlisted(tasks, |tasks|);
    }
  }

  lemma EveryBarIsListed(rank: string -> int, tasks: seq<TaskTiming>, registrations: seq<Registration<string>>,
                         proofStartMs: int, withAirgroup: bool)
    requires AreRegistrations(rank, tasks, registrations) && FirstFault(tasks, |tasks|).None?
    ensures forall k :: 0 <= k < |Placements(tasks, |tasks|, proofStartMs, withAirgroup)| ==>
              Listed(registrations, Placements(tasks, |tasks|, proofStartMs, withAirgroup)[k].worker)
  {
    var placements := Placements(tasks, |tasks|, proofStartMs, withAirgroup);
    BarsHaveNamedWorkers(tasks, |tasks|, proofStartMs, withAirgroup);
    hide Placements, FirstFault, Named, IsSorted;
    forall k | 0 <= k < |placements| ensures Listed(registrations, placements[k].worker) {
      assert placements[k].worker in Keys(registrations);
      var i :| 0 <= i < |registrations| && Keys(registrations)[i] == placements[k].worker;
      assert registrations[i].key == placements[k].worker;
    }
  }

  lemma {:induction false} FaultIsNotUnlisted(tasks: seq<TaskTiming>, count: nat)
    requires count <= |tasks| && FirstFault(tasks, count).Some?
    ensures !FirstFault(tasks, count).value.Unlisted?
  {
    if FirstFault(tasks, count - 1).Some? { FaultIsNotUnlisted(tasks, count - 1); }
    else if !tasks[count - 1].phase.OtherPhase? {
      TypeFaultIsAType(tasks[count - 1].records, |tasks[count - 1].records|);
    }
  }

  lemma {:induction false} TypeFaultIsAType(records: seq<Record>, count: nat)
    requires count <= |records| && TypeFault(records, count).Some?
    ensures TypeFault(records, count).value.UnmappedType?
  {
    if TypeFault(records, count - 1).Some? { TypeFaultIsAType(records, count - 1); }
  }

  // ---------- Well-formed timelines ----------

  ghost predicate IsPlacement(placed: Placement<string>) {
    placed.startMs >= 0 && placed.kind < KINDS && IsBreakdown(placed.breakdown, LABELS)
  }

  lemma SectionsAreWellFormed(task: TaskTiming, record: Record)
    requires |task.executorMs| == EXECUTOR_LABELS
    ensures IsBreakdown(Sections(task, record), LABELS)
  {
    assert |Measured(PROOF_LABELS, record.breakdownMs)| == TRANSPORT - EXECUTOR_LABELS;
    hide NonZero, Measured, KindOf, IsBreakdown, TransportMs;
    var executor := if KindOf(record.proofType) == Some(EXECUTE) then NonZero(task.executorMs, 0, 0) else [];
    var proof := NonZero(Measured(PROOF_LABELS, record.breakdownMs), 0, EXECUTOR_LABELS);
    var transportMs := TransportMs(task);
    var transport: Breakdown := if RoundTrip(task) && transportMs > 0 then [(TRANSPORT, transportMs)] else [];
    ShortBreakdowns(transportMs);
    NonZeroIsBreakdown(task.executorMs, 0);
    NonZeroIsBreakdown(Measured(PROOF_LABELS, record.breakdownMs), EXECUTOR_LABELS);
    BreakdownsJoin(executor, proof, EXECUTOR_LABELS, TRANSPORT);
    BreakdownsJoin(executor + proof, transport, TRANSPORT, LABELS);
  }

  lemma NonZeroIsBreakdown(values: seq<nat>, offset: nat)
    ensures IsBreakdown(NonZero(values, 0, offset), offset + |values|)
    ensures forall k :: 0 <= k < |NonZero(values, 0, offset)| ==> offset <= NonZero(values, 0, offset)[k].0
  {
    NonZeroIsExact(values, 0, offset);
  }

  lemma ShortBreakdowns(transportMs: int)
    ensures IsBreakdown([], EXECUTOR_LABELS) && IsBreakdown([], LABELS)
    ensures IsBreakdown([(TRANSPORT, transportMs)], LABELS)
  {
  }

  lemma BreakdownsJoin(a: Breakdown, b: Breakdown, bound: nat, labels: nat)
    requires IsBreakdown(a, bound) && IsBreakdown(b, labels) && bound <= labels
    requires forall k :: 0 <= k < |b| ==> bound <= b[k].0
    ensures IsBreakdown(a + b, labels)
  {
  }

  lemma {:induction false} TaskBarsArePlacements(task: TaskTiming, count: nat, proofStartMs: int, withAirgroup: bool)
    requires |task.executorMs| == EXECUTOR_LABELS
    requires count <= |task.records| && TypeFault(task.records, count).None?
    ensures forall k :: 0 <= k < |TaskBars(task, count, proofStartMs, withAirgroup)| ==>
            IsPlacement(TaskBars(task, count, proofStartMs, withAirgroup)[k])
  {
    hide Sections, IsBreakdown, ProofId;
    if count > 0 {
      TaskBarsArePlacements(task, count - 1, proofStartMs, withAirgroup);
      SectionsAreWellFormed(task, task.records[count - 1]);
    }
  }

  lemma {:induction false} AllArePlacements(tasks: seq<TaskTiming>, count: nat, proofStartMs: int, withAirgroup: bool)
    requires forall i :: 0 <= i < |tasks| ==> |tasks[i].executorMs| == EXECUTOR_LABELS
    requires count <= |tasks| && FirstFault(tasks, count).None?
    ensures forall k :: 0 <= k < |Placements(tasks, count, proofStartMs, withAirgroup)| ==>
              IsPlacement(Placements(tasks, count, proofStartMs, withAirgroup)[k])
  {
    hide IsPlacement;
    if count > 0 {
      AllArePlacements(tasks, count - 1, proofStartMs, withAirgroup);
      TaskBarsArePlacements(tasks[count - 1], |tasks[count - 1].records|, proofStartMs, withAirgroup);
    }
  }

  lemma ZiskTasksAreWellFormed(rank: string -> int, proofStartMs: int, tasks: seq<TaskTiming>,
                               registrations: seq<Registration<string>>)
    requires forall i :: 0 <= i < |tasks| ==> |tasks[i].executorMs| == EXECUTOR_LABELS
    requires AreRegistrations(rank, tasks, registrations) && FirstFault(tasks, |tasks|).None?
    ensures var placements := Placements(tasks, |tasks|, proofStartMs, |Airgroups(tasks, |tasks|)| > 1);
            var placed := TasksOf(IndexOf(registrations), placements);
            match TimelineOf(registrations, placements)
            case Err(_) => false
            case Ok(pipeline) =>
              && (pipeline.tasks == [] ==> forall k :: 0 <= k < |placements| ==> !placements[k].Drawn())
              && (exists from :: IsDrawing(registrations, placements, pipeline.tasks, from))
              && StableSort.IsStableSort(Before, placed, pipeline.tasks) && multiset(pipeline.tasks) == multiset(placed)
              && pipeline.workers == WorkersOf(registrations)
              && forall k :: 0 <= k < |pipeline.tasks| ==> IsTask(pipeline.tasks[k], |registrations|, KINDS, LABELS)
  {
    TimelineHasWorkers(registrations, Placements(tasks, |tasks|, proofStartMs, |Airgroups(tasks, |tasks|)| > 1));
    hide AreRegistrations, TimelineOf, TasksOf, IsTask, Placements, FirstFault, Listed, StableSort.IsStableSort,
         Airgroups, IsDrawing, WorkersOf;
    var withAirgroup := |Airgroups(tasks, |tasks|)| > 1;
    var placements := Placements(tasks, |tasks|, proofStartMs, withAirgroup);
    EveryBarIsListed(rank, tasks, registrations, proofStartMs, withAirgroup);
    FailsOnUnlisted(registrations, placements);
    AllArePlacements(tasks, |tasks|, proofStartMs, withAirgroup);
    TimelineIsWellFormed(registrations, placements, KINDS, LABELS);
    var placed := TasksOf(IndexOf(registrations), placements);
    if TimelineOf(registrations, placements).value.tasks == [] {
      assert |multiset(placed)| == |placed|;
      NothingDrawn(IndexOf(registrations), placements);
    }
  }

  /** A timeline is a stable sort of the bars that have a length, each well
      formed, and there is none exactly when no bar has one. */
  lemma ZiskTimelineIsWellFormed(rank: string -> int, proofStartMs: int, tasks: seq<TaskTiming>,
                                 registrations: seq<Registration<string>>)
    requires forall i :: 0 <= i < |tasks| ==> |tasks[i].executorMs| == EXECUTOR_LABELS
    requires AreRegistrations(rank, tasks, registrations) && tasks != [] && FirstFault(tasks, |tasks|).None?
    ensures var placements := Placements(tasks, |tasks|, proofStartMs, |Airgroups(tasks, |tasks|)| > 1);
            var placed := TasksOf(IndexOf(registrations), placements);
            match Mapping(Some(proofStartMs), tasks, registrations)
            case Err(_) => false
            case Ok(None) => forall k :: 0 <= k < |placements| ==> !placements[k].Drawn()
            case Ok(Some(pipeline)) =>
              && pipeline.tasks != [] && (exists from :: IsDrawing(registrations, placements, pipeline.tasks, from))
              && StableSort.IsStableSort(Before, placed, pipeline.tasks) && multiset(pipeline.tasks) == multiset(placed)
              && |pipeline.workers| == |registrations|
              && (forall a :: 0 <= a < |registrations| ==>
                    pipeline.workers[a].name == registrations[a].key && pipeline.workers[a].node == a + 1)
              && forall k :: 0 <= k < |pipeline.tasks| ==> IsTask(pipeline.tasks[k], |registrations|, KINDS, LABELS)
  {
    hide AreRegistrations, TimelineOf, TasksOf, IsTask, Placements, FirstFault, StableSort.IsStableSort, Airgroups,
         IsDrawing, WorkersOf;
    ZiskTasksAreWellFormed(rank, proofStartMs, tasks, registrations);
    ZiskWorkers(rank, tasks, registrations);
  }

  lemma ZiskWorkers(rank: string -> int, tasks: seq<TaskTiming>, registrations: seq<Registration<string>>)
    requires AreRegistrations(rank, tasks, registrations)
    ensures var workers := WorkersOf(registrations);
            forall a :: 0 <= a < |registrations| ==> workers[a].name == registrations[a].key && workers[a].node == a + 1
  {
    var workers := WorkersOf(registrations);
    hide WorkersOf, IsSorted, Named;
    forall a | 0 <= a < |registrations| ensures workers[a].name == registrations[a].key && workers[a].node == a + 1 {
      NodesFollowRank(rank, tasks, registrations, a);
    }
  }

  lemma TimelineHasWorkers(registrations: seq<Registration<string>>, placements: seq<Placement<string>>)
    ensures TimelineOf(registrations, placements).Ok? ==>
              TimelineOf(registrations, placements).value.workers == WorkersOf(registrations)
  {
    hide WorkersOf, TasksOf, UnlistedOf;
  }

  lemma {:induction false} NothingDrawn(index: map<string, nat>, placements: seq<Placement<string>>)
    requires TasksOf(index, placements) == []
    ensures forall k :: 0 <= k < |placements| ==> !placements[k].Drawn()
  {
    if placements != [] {
      NothingDrawn(index, placements[..|placements| - 1]);
    }
  }

  // ---------- Clock invariance ----------

  /** Every worker clock and the coordinator clock later by delta, an absent
      dispatch staying absent. */
  function Later(task: TaskTiming, delta: int): TaskTiming {
    task.(coordinatorStart := if task.coordinatorStart == 0 then 0 else task.coordinatorStart + delta,
          coordinatorEnd := task.coordinatorEnd + delta,
          workerStart := task.workerStart + delta, workerEnd := task.workerEnd + delta,
          records := LaterRecords(task.records, delta))
  }

  /** The clock of one worker off by delta, on a task drawn over its round trip. */
  function Skewed(task: TaskTiming, worker: string, delta: int): TaskTiming {
    if task.workerId == worker && RoundTrip(task)
    then task.(workerStart := task.workerStart + delta, workerEnd := task.workerEnd + delta,
      records := LaterRecords(task.records, delta))
    else task
  }

  function LaterRecords(records: seq<Record>, delta: int): seq<Record> {
    seq(|records|, j requires 0 <= j < |records| =>
      records[j].(start := records[j].start + delta, end := records[j].end + delta))
  }

  datatype Change = Shift(delta: int) | Skew(worker: string, delta: int)

  function Changed(task: TaskTiming, change: Change): TaskTiming {
    match change
    case Shift(delta) => Later(task, delta)
    case Skew(worker, delta) => Skewed(task, worker, delta)
  }

  function AllChanged(tasks: seq<TaskTiming>, change: Change): seq<TaskTiming> {
    seq(|tasks|, i requires 0 <= i < |tasks| => Changed(tasks[i], change))
  }

  function ChangedStart(proofStartMs: int, change: Change): int {
    if change.Shift? then proofStartMs + change.delta else proofStartMs
  }

  /** A dispatch that is present stays present. */
  ghost predicate CanChange(task: TaskTiming, change: Change) {
    change.Shift? && task.coordinatorStart != 0 ==> task.coordinatorStart + change.delta != 0
  }

  lemma BarStays(task: TaskTiming, j: nat, proofStartMs: int, withAirgroup: bool, change: Change)
    requires CanChange(task, change) && j < |task.records| && KindOf(task.records[j].proofType).Some?
    ensures |Changed(task, change).records| == |task.records|
    ensures var record := Changed(task, change).records[j];
            && record.proofType == task.records[j].proofType && record.airgroupId == task.records[j].airgroupId
            && Bar(Changed(task, change), record, ChangedStart(proofStartMs, change), withAirgroup)
               == Bar(task, task.records[j], proofStartMs, withAirgroup)
  {
    hide KindOf, NonZero;
    var changed := Changed(task, change);
    assert RoundTrip(changed) == RoundTrip(task);
    assert RoundTrip(task) ==> TransportMs(changed) == TransportMs(task);
    assert Sections(changed, changed.records[j]) == Sections(task, task.records[j]);
  }

  lemma {:induction false} FaultsStay(task: TaskTiming, count: nat, change: Change)
    requires count <= |task.records|
    ensures |Changed(task, change).records| == |task.records|
    ensures TypeFault(Changed(task, change).records, count) == TypeFault(task.records, count)
    ensures AirgroupsIn(Changed(task, change).records, count) == AirgroupsIn(task.records, count)
  {
    hide KindOf;
    if count > 0 { FaultsStay(task, count - 1, change); }
  }

  lemma {:induction false} TaskBarsStay(task: TaskTiming, count: nat, proofStartMs: int, withAirgroup: bool,
                                        change: Change)
    requires CanChange(task, change) && count <= |task.records| && TypeFault(task.records, count).None?
    ensures |Changed(task, change).records| == |task.records| && TypeFault(Changed(task, change).records, count).None?
    ensures TaskBars(Changed(task, change), count, ChangedStart(proofStartMs, change), withAirgroup)
            == TaskBars(task, count, proofStartMs, withAirgroup)
  {
    hide Bar, KindOf, Changed, CanChange;
    FaultsStay(task, count, change);
    if count > 0 {
      TaskBarsStay(task, count - 1, proofStartMs, withAirgroup, change);
      BarStays(task, count - 1, proofStartMs, withAirgroup, change);
    }
  }

  lemma {:induction false} AllFaultsStay(tasks: seq<TaskTiming>, count: nat, change: Change)
    requires count <= |tasks|
    ensures FirstFault(AllChanged(tasks, change), count) == FirstFault(tasks, count)
    ensures Airgroups(AllChanged(tasks, change), count) == Airgroups(tasks, count)
  {
    hide TypeFault, AirgroupsIn;
    if count > 0 {
      AllFaultsStay(tasks, count - 1, change);
      FaultsStay(tasks[count - 1], |tasks[count - 1].records|, change);
    }
  }

  lemma {:induction false} PlacementsStay(tasks: seq<TaskTiming>, count: nat, proofStartMs: int, withAirgroup: bool,
                                          change: Change)
    requires forall i :: 0 <= i < |tasks| ==> CanChange(tasks[i], change)
    requires count <= |tasks| && FirstFault(tasks, count).None?
    ensures FirstFault(AllChanged(tasks, change), count).None?
    ensures Placements(AllChanged(tasks, change), count, ChangedStart(proofStartMs, change), withAirgroup)
            == Placements(tasks, count, proofStartMs, withAirgroup)
  {
    hide TaskBars, Changed, CanChange, TypeFault;
    AllFaultsStay(tasks, count, change);
    if count > 0 {
      PlacementsStay(tasks, count - 1, proofStartMs, withAirgroup, change);
      TaskBarsStay(tasks[count - 1], |tasks[count - 1].records|, proofStartMs, withAirgroup, change);
    }
  }

  /** Moving every clock by one amount, or the clock of one worker on its
      round-trip tasks by any amount, leaves the whole timeline as it is. */
  lemma ClocksKeepTimeline(proofStart: Option<int>, tasks: seq<TaskTiming>, change: Change,
                           registrations: seq<Registration<string>>)
    requires forall i :: 0 <= i < |tasks| ==> CanChange(tasks[i], change)
    ensures var start := if proofStart.Some? then Some(ChangedStart(proofStart.value, change)) else None;
            Mapping(start, AllChanged(tasks, change), registrations) == Mapping(proofStart, tasks, registrations)
  {
    hide CanChange, Changed, TimelineOf, Placements, FirstFault, Airgroups;
    AllFaultsStay(tasks, |tasks|, change);
    if proofStart.Some? && FirstFault(tasks, |tasks|).None? {
      PlacementsStay(tasks, |tasks|, proofStart.value, |Airgroups(tasks, |tasks|)| > 1, change);
    }
  }
}
