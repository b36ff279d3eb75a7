/** The OpenVM mapper: every task result of a proof, stamped by the manager and
    by a worker on two clocks, placed on the proof clock. */
module OpenvmTimeline {
  import opened Wrappers
  import opened Timeline
  import StableSort

  const EXECUTION := 0
  const FAST_FORWARD := 1
  const SEGMENT := 2
  const LEAF := 3
  const INTERNAL := 4
  const WRAP := 5
  const KINDS := 6

  /** The sub metric of every breakdown label, in label order. */
  const SUB_METRICS: seq<string> := [
    "execute_preflight_time_ms", "postflight_time_ms", "trace_gen_time_ms", "prover.main_trace_commit_time_ms",
    "prover.rap_constraints.logup_gkr_time_ms", "prover.rap_constraints.round0_time_ms",
    "prover.rap_constraints.mle_rounds_time_ms", "prover.openings_time_ms"]

  /** The labels of the sub metrics, then the network transport. */
  const LABELS := 9

  /** One task result. A dispatch stamp of 0 is absent. The dispatch and the
      completion are on the clock of the manager, the other two stamps on that of
      the worker. Sub metrics are whole milliseconds. */
  datatype Timing = Timing(
    worker: int, dispatchedAtMs: int, workerStartMs: int, workerEndMs: int, completedAtMs: int,
    segmentStart: int, segmentEnd: int, layer: int,
    queueWaitMs: int, meteredTimeMs: int, fastForwardTimeMs: int, starkProveTimeMs: int, compressionTimeMs: int,
    subMetrics: map<string, int>, wrapSubMetrics: map<string, int>)

  datatype View = View(proofStartMs: int, appProofs: seq<Timing>, leafProofs: seq<Timing>, internalProofs: seq<Timing>)

  // ---------- What the mapper places ----------

  /** A task without a dispatch stamp has only the reply leg. */
  function TransportMs(t: Timing): (ms: int)
    ensures ms >= 0
  {
    var dispatchedAtMs := if t.dispatchedAtMs != 0 then t.dispatchedAtMs else t.workerStartMs;
    NetworkTransportMs(dispatchedAtMs, t.workerStartMs, t.workerEndMs, t.completedAtMs)
  }

  function WithTransport(breakdown: Breakdown, transportMs: int): Breakdown {
    if transportMs == 0 then breakdown else breakdown + [(|SUB_METRICS|, transportMs)]
  }

  function Sections(subMetrics: map<string, int>): Breakdown {
    SectionsFrom(SUB_METRICS, subMetrics, 0, 0)
  }

  function SegmentBar(t: Timing, proofStartMs: int): Placement<int> {
    var durationMs :=
      if t.dispatchedAtMs == 0 then t.completedAtMs - t.workerStartMs - t.fastForwardTimeMs
      else t.starkProveTimeMs + TransportMs(t);
    Placed(SEGMENT, t.worker, Segment(t.segmentStart), t.completedAtMs - proofStartMs, durationMs,
           WithTransport(Sections(t.subMetrics), TransportMs(t)))
  }

  function FastForwardBar(t: Timing, proofStartMs: int): Placement<int> {
    Placed(FAST_FORWARD, t.worker, Segment(t.segmentStart), SegmentBar(t, proofStartMs).Begin(),
           t.fastForwardTimeMs, [])
  }

  function MeteringBar(t: Timing, proofStartMs: int): Placement<int> {
    Placed(EXECUTION, t.worker, Segment(t.segmentStart), FastForwardBar(t, proofStartMs).Begin() - t.queueWaitMs,
           t.meteredTimeMs, [])
  }

  function AppBars(t: Timing, proofStartMs: int): seq<Placement<int>> {
    [SegmentBar(t, proofStartMs), FastForwardBar(t, proofStartMs), MeteringBar(t, proofStartMs)]
  }

  function LeafBars(t: Timing, proofStartMs: int): seq<Placement<int>> {
    [Placed(LEAF, t.worker, Range(t.segmentStart, t.segmentEnd), t.completedAtMs - proofStartMs,
            t.completedAtMs - t.dispatchedAtMs, WithTransport(Sections(t.subMetrics), TransportMs(t)))]
  }

  function InternalBar(t: Timing, proofStartMs: int): Placement<int> {
    var wrapStartMs := t.completedAtMs - proofStartMs - t.compressionTimeMs;
    Placed(INTERNAL, t.worker, Layer(t.layer, t.segmentStart, t.segmentEnd), wrapStartMs,
           wrapStartMs - (t.dispatchedAtMs - proofStartMs), WithTransport(Sections(t.subMetrics), TransportMs(t)))
  }

  function WrapBar(t: Timing, proofStartMs: int): Placement<int> {
    Placed(WRAP, t.worker, Layer(t.layer, t.segmentStart, t.segmentEnd), t.completedAtMs - proofStartMs,
           t.compressionTimeMs, Sections(t.wrapSubMetrics))
  }

  function InternalBars(t: Timing, proofStartMs: int): seq<Placement<int>> {
    [InternalBar(t, proofStartMs), WrapBar(t, proofStartMs)]
  }

  datatype Stage = App | Leaf | Internal

  function Bars(stage: Stage, t: Timing, proofStartMs: int): seq<Placement<int>> {
    match stage
    case App => AppBars(t, proofStartMs)
    case Leaf => LeafBars(t, proofStartMs)
    case Internal => InternalBars(t, proofStartMs)
  }

  function AllBars(stage: Stage, timings: seq<Timing>, proofStartMs: int): seq<Placement<int>> {
    if timings == [] then []
    else AllBars(stage, timings[..|timings| - 1], proofStartMs) + Bars(stage, timings[|timings| - 1], proofStartMs)
  }

  function Placements(view: View): seq<Placement<int>> {
    AllBars(App, view.appProofs, view.proofStartMs) + AllBars(Leaf, view.leafProofs, view.proofStartMs)
    + AllBars(Internal, view.internalProofs, view.proofStartMs)
  }

  // ---------- The mapper ----------

  /** The sections of a task, gathered label by label. */
  method MapBreakdown(labels: seq<string>, subMetrics: map<string, int>) returns (breakdown: Breakdown)
    ensures breakdown == SectionsFrom(labels, subMetrics, 0, 0)
  {
    breakdown := [];
    for index := 0 to |labels|
      invariant breakdown + SectionsFrom(labels, subMetrics, index, 0) == SectionsFrom(labels, subMetrics, 0, 0)
    {
      if labels[index] in subMetrics {
        breakdown := breakdown + [(index, subMetrics[labels[index]])];
      }
    }
  }

  function ByWorker(): (Registration<int>, Registration<int>) -> bool {
    (a: Registration<int>, b: Registration<int>) => a.key <= b.key
  }

  lemma NoTasks(view: View, proofStartMs: int)
    ensures AllBars(App, view.appProofs[..0], proofStartMs) == AllBars(Leaf, view.leafProofs[..0], proofStartMs)
            == AllBars(Internal, view.internalProofs[..0], proofStartMs) == []
  {
  }

  lemma OneMoreTask(stage: Stage, timings: seq<Timing>, k: nat, proofStartMs: int)
    requires k < |timings|
    ensures AllBars(stage, timings[..k + 1], proofStartMs)
            == AllBars(stage, timings[..k], proofStartMs) + Bars(stage, timings[k], proofStartMs)
  {
    assert timings[..k + 1][..k] == timings[..k];
  }

  lemma AllTasks(stage: Stage, timings: seq<Timing>, proofStartMs: int)
    ensures AllBars(stage, timings[..|timings|], proofStartMs) == AllBars(stage, timings, proofStartMs)
  {
    assert timings[..|timings|] == timings;
  }

  /** Places every task result, in the order of the view, and builds the
      timeline over the workers in the order of their ids. */
  method MapPipeline(view: View, registrations: seq<Registration<int>>)
    returns (r: Result<Pipeline, int>)
    ensures r == TimelineOf(StableSort.Sort(ByWorker(), registrations), Placements(view))
  {
    hide AllBars, Bars, PipelineBuilder.Valid, WorkersOf, IndexOf, Built, StableSort.Sort;
    var builder := new PipelineBuilder(StableSort.Sort(ByWorker(), registrations));
    ghost var workers, index := builder.workers, builder.workerIndex;
    var proofStartMs := view.proofStartMs;
    NoTasks(view, proofStartMs);
    for k := 0 to |view.appProofs|
      invariant builder.Valid() && builder.workers == workers && builder.workerIndex == index && fresh(builder)
      invariant builder.placements == AllBars(App, view.appProofs[..k], proofStartMs)
    {
      var t := view.appProofs[k];
      OneMoreTask(App, view.appProofs, k, proofStartMs);
      PlaceApp(builder, t, proofStartMs);
    }
    AllTasks(App, view.appProofs, proofStartMs);
    ghost var placed := builder.placements;
    for k := 0 to |view.leafProofs|
      invariant builder.Valid() && builder.workers == workers && builder.workerIndex == index && fresh(builder)
      invariant builder.placements == placed + AllBars(Leaf, view.leafProofs[..k], proofStartMs)
    {
      var t := view.leafProofs[k];
      OneMoreTask(Leaf, view.leafProofs, k, proofStartMs);
      PlaceLeaf(builder, t, proofStartMs);
    }
    AllTasks(Leaf, view.leafProofs, proofStartMs);
    placed := builder.placements;
    for k := 0 to |view.internalProofs|
      invariant builder.Valid() && builder.workers == workers && builder.workerIndex == index && fresh(builder)
      invariant builder.placements == placed + AllBars(Internal, view.internalProofs[..k], proofStartMs)
    {
      var t := view.internalProofs[k];
      OneMoreTask(Internal, view.internalProofs, k, proofStartMs);
      PlaceInternal(builder, t, proofStartMs);
    }
    AllTasks(Internal, view.internalProofs, proofStartMs);
    r := builder.Pipeline();
  }

  method PlaceApp(builder: PipelineBuilder<int>, t: Timing, proofStartMs: int)
    requires builder.Valid()
    modifies builder
    ensures builder.Valid() && builder.workers == old(builder.workers)
            && builder.workerIndex == old(builder.workerIndex)
    ensures builder.placements == old(builder.placements) + Bars(App, t, proofStartMs)
  {
    var id := Segment(t.segmentStart);
    var endMs := t.completedAtMs - proofStartMs;
    var transportMs := TransportMs(t);
    var durationMs := t.starkProveTimeMs + transportMs;
    if t.dispatchedAtMs == 0 {
      durationMs := t.completedAtMs - t.workerStartMs - t.fastForwardTimeMs;
    }
    var breakdown := MapBreakdown(SUB_METRICS, t.subMetrics);
    var segmentStartMs := builder.Place(SEGMENT, t.worker, id, endMs, durationMs,
      WithTransport(breakdown, transportMs));
    var fastForwardStartMs := builder.Place(FAST_FORWARD, t.worker, id, segmentStartMs, t.fastForwardTimeMs, []);
    var _ := builder.Place(EXECUTION, t.worker, id, fastForwardStartMs - t.queueWaitMs, t.meteredTimeMs, []);
  }

  method PlaceLeaf(builder: PipelineBuilder<int>, t: Timing, proofStartMs: int)
    requires builder.Valid()
    modifies builder
    ensures builder.Valid() && builder.workers == old(builder.workers)
            && builder.workerIndex == old(builder.workerIndex)
    ensures builder.placements == old(builder.placements) + Bars(Leaf, t, proofStartMs)
  {
    var breakdown := MapBreakdown(SUB_METRICS, t.subMetrics);
    var _ := builder.Place(LEAF, t.worker, Range(t.segmentStart, t.segmentEnd), t.completedAtMs - proofStartMs,
                           t.completedAtMs - t.dispatchedAtMs, WithTransport(breakdown, TransportMs(t)));
  }

  method PlaceInternal(builder: PipelineBuilder<int>, t: Timing, proofStartMs: int)
    requires builder.Valid()
    modifies builder
    ensures builder.Valid() && builder.workers == old(builder.workers)
            && builder.workerIndex == old(builder.workerIndex)
    ensures builder.placements == old(builder.placements) + Bars(Internal, t, proofStartMs)
  {
    var id := Layer(t.layer, t.segmentStart, t.segmentEnd);
    var endMs := t.completedAtMs - proofStartMs;
    var breakdown := MapBreakdown(SUB_METRICS, t.subMetrics);
    var wrapStartMs := endMs - t.compressionTimeMs;
    var _ := builder.Place(INTERNAL, t.worker, id, wrapStartMs, wrapStartMs - (t.dispatchedAtMs - proofStartMs),
      WithTransport(breakdown, TransportMs(t)));
    breakdown := MapBreakdown(SUB_METRICS, t.wrapSubMetrics);
    var _ := builder.Place(WRAP, t.worker, id, endMs, t.compressionTimeMs, breakdown);
  }

  // ---------- What the bars are ----------

  /** The bar of this kind, worker and id from startMs to endMs, cut off at zero. */
  predicate Spans(bar: Placement<int>, kind: nat, worker: int, id: TaskId, startMs: int, endMs: int) {
    && bar.kind == kind && bar.worker == worker && bar.id == id
    && bar.startMs == (if startMs >= 0 then startMs else 0) && bar.endMs == (if endMs >= 0 then endMs else 0)
  }

  /** The segment ends at the receipt. It takes its proving time and the transport
      when it was dispatched, else the time from its start on the worker less the
      fast forward. The fast forward and the metering go before it. */
  lemma AppBarsAre(t: Timing, proofStartMs: int)
    ensures var endMs := t.completedAtMs - proofStartMs;
            var transportMs := t.completedAtMs - t.workerEndMs + t.workerStartMs - t.dispatchedAtMs;
            var lengthMs := if t.dispatchedAtMs == 0 then t.completedAtMs - t.workerStartMs - t.fastForwardTimeMs
                            else t.starkProveTimeMs + if transportMs > 0 then transportMs else 0;
            var bars, id := AppBars(t, proofStartMs), Segment(t.segmentStart);
            && |bars| == 3
            && Spans(bars[0], 2, t.worker, id, endMs - lengthMs, endMs)
            && (bars[0].Drawn() && t.fastForwardTimeMs > 0 && bars[0].startMs > 0 ==>
                  Spans(bars[1], 1, t.worker, id, bars[0].startMs - t.fastForwardTimeMs, bars[0].startMs))
            && (bars[0].Drawn() && t.fastForwardTimeMs > 0 && bars[0].startMs > t.fastForwardTimeMs ==>
                  var meteredEndMs := bars[0].startMs - t.fastForwardTimeMs - t.queueWaitMs;
                  Spans(bars[2], 0, t.worker, id, meteredEndMs - t.meteredTimeMs, meteredEndMs))
            && bars[1].kind == 1 && bars[1].worker == t.worker && bars[1].id == id && bars[1].breakdown == []
            && bars[2].kind == 0 && bars[2].worker == t.worker && bars[2].id == id && bars[2].breakdown == []
  {
  }

  /** A dispatched segment that starts after the proof takes its proving time and
      the transport, and ends at the receipt. */
  lemma DispatchedSegmentLasts(t: Timing, proofStartMs: int)
    requires t.dispatchedAtMs != 0 && SegmentBar(t, proofStartMs).startMs > 0 && SegmentBar(t, proofStartMs).Drawn()
    ensures var bar := SegmentBar(t, proofStartMs);
            && bar.endMs == t.completedAtMs - proofStartMs
            && bar.endMs - bar.startMs == t.starkProveTimeMs + TransportMs(t)
  {
  }

  lemma LeafBarsAre(t: Timing, proofStartMs: int)
    ensures var bars := LeafBars(t, proofStartMs);
            && |bars| == 1
            && Spans(bars[0], 3, t.worker, Range(t.segmentStart, t.segmentEnd),
                     t.dispatchedAtMs - proofStartMs, t.completedAtMs - proofStartMs)
  {
  }

  lemma InternalBarsAre(t: Timing, proofStartMs: int)
    ensures var bars, id := InternalBars(t, proofStartMs), Layer(t.layer, t.segmentStart, t.segmentEnd);
            var endMs := t.completedAtMs - proofStartMs;
            && |bars| == 2
            && Spans(bars[0], 4, t.worker, id, t.dispatchedAtMs - proofStartMs, endMs - t.compressionTimeMs)
            && Spans(bars[1], 5, t.worker, id, endMs - t.compressionTimeMs, endMs)
  {
  }

  /** The sections of the first bar of a task are its reported sub metrics and the
      transport, unless that is zero. Those of a wrap are its own sub metrics. */
  lemma BarSectionsAre(stage: Stage, t: Timing, proofStartMs: int, section: (nat, int))
    ensures section in Bars(stage, t, proofStartMs)[0].breakdown <==>
              || (section.0 < 8 && SUB_METRICS[section.0] in t.subMetrics
                  && section.1 == t.subMetrics[SUB_METRICS[section.0]])
              || (section == (8, TransportMs(t)) && TransportMs(t) != 0)
    ensures stage.Internal? ==>
              (section in Bars(stage, t, proofStartMs)[1].breakdown <==>
                section.0 < 8 && SUB_METRICS[section.0] in t.wrapSubMetrics
                && section.1 == t.wrapSubMetrics[SUB_METRICS[section.0]])
  {
    SectionsAreExact(SUB_METRICS, t.subMetrics, 0, 0);
    SectionsAreExact(SUB_METRICS, t.wrapSubMetrics, 0, 0);
    hide SectionsFrom, TransportMs, SegmentBar, Placed;
    assert |SUB_METRICS| == 8;
    BarSections(stage, t, proofStartMs);
  }

  lemma BarSections(stage: Stage, t: Timing, proofStartMs: int)
    ensures Bars(stage, t, proofStartMs)[0].breakdown == WithTransport(Sections(t.subMetrics), TransportMs(t))
    ensures stage.Internal? ==> Bars(stage, t, proofStartMs)[1].breakdown == Sections(t.wrapSubMetrics)
  {
    hide Sections, WithTransport, TransportMs;
  }

  function BarCount(stage: Stage): nat {
    match stage case App => 3 case Leaf => 1 case Internal => 2
  }

  /** The place of a bar of the task k among those of its stage. */
  function BarNumber(stage: Stage, k: nat, bar: nat): nat {
    match stage case App => 3 * k + bar case Leaf => k + bar case Internal => 2 * k + bar
  }

  /** The bars of every task are placed, task by task. */
  lemma {:induction false} BarIsPlaced(stage: Stage, timings: seq<Timing>, proofStartMs: int, k: nat, bar: nat)
    requires k < |timings| && bar < BarCount(stage)
    ensures BarNumber(stage, k, bar) < |AllBars(stage, timings, proofStartMs)| == BarNumber(stage, |timings|, 0)
    ensures |Bars(stage, timings[k], proofStartMs)| == BarCount(stage)
    ensures AllBars(stage, timings, proofStartMs)[BarNumber(stage, k, bar)]
            == Bars(stage, timings[k], proofStartMs)[bar]
  {
    hide Bars, AllBars;
    var n := |timings| - 1;
    var head, last := AllBars(stage, timings[..n], proofStartMs), Bars(stage, timings[n], proofStartMs);
    BarsAreCounted(stage, timings[..n], proofStartMs);
    BarsOfOne(stage, timings[n], proofStartMs);
    AllBarsOfMore(stage, timings, proofStartMs);
    BarsAreCounted(stage, timings, proofStartMs);
    if k < n {
      BarIsPlaced(stage, timings[..n], proofStartMs, k, bar);
      assert (head + last)[BarNumber(stage, k, bar)] == head[BarNumber(stage, k, bar)];
    } else {
      assert (head + last)[|head| + bar] == last[bar];
    }
  }

  lemma AllBarsOfMore(stage: Stage, timings: seq<Timing>, proofStartMs: int)
    requires timings != []
    ensures AllBars(stage, timings, proofStartMs)
            == AllBars(stage, timings[..|timings| - 1], proofStartMs)
               + Bars(stage, timings[|timings| - 1], proofStartMs)
  {
    hide Bars;
  }

  lemma BarsOfOne(stage: Stage, t: Timing, proofStartMs: int)
    ensures |Bars(stage, t, proofStartMs)| == BarCount(stage)
  {
    hide Placed, Sections, WithTransport, TransportMs;
  }

  lemma {:induction false} BarsAreCounted(stage: Stage, timings: seq<Timing>, proofStartMs: int)
    ensures |AllBars(stage, timings, proofStartMs)| == BarNumber(stage, |timings|, 0)
  {
    hide Bars;
    if timings != [] {
      BarsOfOne(stage, timings[|timings| - 1], proofStartMs);
      BarsAreCounted(stage, timings[..|timings| - 1], proofStartMs);
    }
  }

  /** The workers of a timeline are in the order of their ids. */
  lemma WorkersFollowIds(registrations: seq<Registration<int>>)
    ensures var sorted := StableSort.Sort(ByWorker(), registrations);
            && multiset(sorted) == multiset(registrations)
            && forall i, j :: 0 <= i < j < |sorted| ==> sorted[i].key <= sorted[j].key
  {
    IdsAreOrdered();
    StableSort.SortIsStable(ByWorker(), registrations);
    var sorted := StableSort.Sort(ByWorker(), registrations);
    hide StableSort.Sort, StableSort.Peers;
    forall i, j | 0 <= i < j < |sorted| ensures sorted[i].key <= sorted[j].key {
      assert ByWorker()(sorted[i], sorted[j]);
    }
  }

  lemma IdsAreOrdered()
    ensures StableSort.TotalPreorder(ByWorker())
  {
  }

  // ---------- Tiling ----------

  /** The bars of one app proof never overlap: the fast forward ends where the
      segment starts, and the metering ends the queue wait before the fast
      forward, or before the proof. */
  lemma AppBarsChain(t: Timing, proofStartMs: int)
    requires t.queueWaitMs >= 0
    ensures var segment, fastForward := SegmentBar(t, proofStartMs), FastForwardBar(t, proofStartMs);
            var metering := MeteringBar(t, proofStartMs);
            && fastForward.endMs == segment.Begin()
            && (segment.Drawn() ==> fastForward.endMs == segment.startMs)
            && (metering.Drawn() ==> metering.endMs == fastForward.Begin() - t.queueWaitMs)
            && (forall ms ::
                  && !(segment.Covers(ms) && fastForward.Covers(ms))
                  && !(fastForward.Covers(ms) && metering.Covers(ms))
                  && !(segment.Covers(ms) && metering.Covers(ms)))
  {
  }

  /** At the millisecond ms, exactly one of the two bars covers the stretch
      between two stamps, clamped to the proof clock, and none covers more. */
  ghost predicate TilesAt(a: Placement<int>, b: Placement<int>, fromMs: int, toMs: int, proofStartMs: int, ms: int) {
    && (a.Covers(ms) || b.Covers(ms) <==> Max(fromMs - proofStartMs, 0) <= ms < Max(toMs - proofStartMs, 0))
    && !(a.Covers(ms) && b.Covers(ms))
  }

  /** A later segment and its fast forward tile the time from the start of the
      worker to the receipt exactly when the fast forward fits between the two,
      or there is none, or one of the stamps is clamped to the proof start. */
  lemma LaterSegmentTiles(t: Timing, proofStartMs: int)
    requires t.dispatchedAtMs == 0 && t.fastForwardTimeMs >= 0
    ensures var segment, fastForward := SegmentBar(t, proofStartMs), FastForwardBar(t, proofStartMs);
            (forall ms :: TilesAt(fastForward, segment, t.workerStartMs, t.completedAtMs, proofStartMs, ms)) <==>
            || t.workerStartMs + t.fastForwardTimeMs <= t.completedAtMs
            || t.fastForwardTimeMs == 0 || t.workerStartMs <= proofStartMs || t.completedAtMs <= proofStartMs
  {
    var segment, fastForward := SegmentBar(t, proofStartMs), FastForwardBar(t, proofStartMs);
    if t.workerStartMs + t.fastForwardTimeMs > t.completedAtMs && t.fastForwardTimeMs > 0
       && t.workerStartMs > proofStartMs && t.completedAtMs > proofStartMs {
      assert !TilesAt(fastForward, segment, t.workerStartMs, t.completedAtMs, proofStartMs, fastForward.startMs);
    } else {
      forall ms ensures TilesAt(fastForward, segment, t.workerStartMs, t.completedAtMs, proofStartMs, ms) {
      }
    }
  }

  /** A later segment of a worker that started at 10 and a receipt at 15 with a
      fast forward of 10: the fast forward starts at 5, before the worker did. */
  lemma LongFastForwardOverruns()
    ensures var t := Timing(0, 0, 10, 15, 15, 0, 0, 0, 0, 0, 10, 0, 0, map[], map[]);
            && t.workerStartMs == 10 && t.completedAtMs == 15 && t.fastForwardTimeMs == 10
            && FastForwardBar(t, 0).startMs == 5 && FastForwardBar(t, 0).endMs == 15 && !SegmentBar(t, 0).Drawn()
            && !TilesAt(FastForwardBar(t, 0), SegmentBar(t, 0), t.workerStartMs, t.completedAtMs, 0, 5)
  {
  }

  /** An internal bar and its wrap tile the time from the dispatch to the receipt
      exactly when the compression fits between the two, or there is none, or one
      of the stamps is clamped to the proof start. */
  lemma InternalAndWrapTile(t: Timing, proofStartMs: int)
    requires t.compressionTimeMs >= 0
    ensures var internal, wrap := InternalBar(t, proofStartMs), WrapBar(t, proofStartMs);
            (forall ms :: TilesAt(internal, wrap, t.dispatchedAtMs, t.completedAtMs, proofStartMs, ms)) <==>
            || t.dispatchedAtMs + t.compressionTimeMs <= t.completedAtMs
            || t.compressionTimeMs == 0 || t.dispatchedAtMs <= proofStartMs || t.completedAtMs <= proofStartMs
  {
    var internal, wrap := InternalBar(t, proofStartMs), WrapBar(t, proofStartMs);
    if t.dispatchedAtMs + t.compressionTimeMs > t.completedAtMs && t.compressionTimeMs > 0
       && t.dispatchedAtMs > proofStartMs && t.completedAtMs > proofStartMs {
      assert !TilesAt(internal, wrap, t.dispatchedAtMs, t.completedAtMs, proofStartMs, wrap.startMs);
    } else {
      forall ms ensures TilesAt(internal, wrap, t.dispatchedAtMs, t.completedAtMs, proofStartMs, ms) {
      }
    }
  }

  /** An internal task dispatched at 10 and received at 15 with a compression of
      10: its wrap starts at 5, before the dispatch. */
  lemma LongCompressionOverruns()
    ensures var t := Timing(0, 10, 10, 15, 15, 0, 0, 0, 0, 0, 0, 0, 10, map[], map[]);
            && t.dispatchedAtMs == 10 && t.completedAtMs == 15 && t.compressionTimeMs == 10
            && WrapBar(t, 0).startMs == 5 && WrapBar(t, 0).endMs == 15 && !InternalBar(t, 0).Drawn()
            && !TilesAt(InternalBar(t, 0), WrapBar(t, 0), t.dispatchedAtMs, t.completedAtMs, 0, 5)
  {
  }

  /** A dispatched leaf that starts after the proof takes its time on the worker
      and the network transport. */
  lemma LeafBarIsRoundTrip(t: Timing, proofStartMs: int)
    requires t.dispatchedAtMs != 0 && proofStartMs <= t.dispatchedAtMs <= t.completedAtMs
    requires t.workerEndMs - t.workerStartMs <= t.completedAtMs - t.dispatchedAtMs
    ensures var bar := LeafBars(t, proofStartMs)[0];
            bar.startMs == t.dispatchedAtMs - proofStartMs
              && bar.endMs - bar.startMs == (t.workerEndMs - t.workerStartMs) + TransportMs(t)
  {
    TransportSplitsRoundTrip(t.dispatchedAtMs, t.workerStartMs, t.workerEndMs, t.completedAtMs, 0);
  }

  // ---------- Clock invariance ----------

  /** A timing whose stamps are all later by delta, an absent one staying absent. */
  function Later(t: Timing, delta: int): Timing {
    t.(dispatchedAtMs := if t.dispatchedAtMs == 0 then 0 else t.dispatchedAtMs + delta,
       workerStartMs := t.workerStartMs + delta, workerEndMs := t.workerEndMs + delta,
       completedAtMs := t.completedAtMs + delta)
  }

  function AllLater(timings: seq<Timing>, delta: int): seq<Timing> {
    seq(|timings|, k requires 0 <= k < |timings| => Later(timings[k], delta))
  }

  function LaterView(view: View, delta: int): View {
    View(view.proofStartMs + delta, AllLater(view.appProofs, delta), AllLater(view.leafProofs, delta),
      AllLater(view.internalProofs, delta))
  }

  /** A present dispatch stamp stays present, and the bars of a leaf or an
      internal task without one do not cross the epoch. */
  ghost predicate CanShift(stage: Stage, t: Timing, proofStartMs: int, delta: int) {
    && (t.dispatchedAtMs != 0 ==> t.dispatchedAtMs + delta != 0)
    && (t.dispatchedAtMs == 0 && stage != App ==> delta == 0 || (proofStartMs >= 0 && proofStartMs + delta >= 0))
  }

  lemma BarsShift(stage: Stage, t: Timing, proofStartMs: int, delta: int)
    requires CanShift(stage, t, proofStartMs, delta)
    ensures Bars(stage, Later(t, delta), proofStartMs + delta) == Bars(stage, t, proofStartMs)
  {
    var t', start' := Later(t, delta), proofStartMs + delta;
    assert TransportMs(t') == TransportMs(t);
    match stage
    case App => assert SegmentBar(t', start') == SegmentBar(t, proofStartMs);
    case Leaf =>
    case Internal =>
      assert InternalBar(t', start') == InternalBar(t, proofStartMs) && WrapBar(t', start') == WrapBar(t, proofStartMs);
  }

  lemma {:induction false} AllBarsShift(stage: Stage, timings: seq<Timing>, proofStartMs: int, delta: int)
    requires forall k :: 0 <= k < |timings| ==> CanShift(stage, timings[k], proofStartMs, delta)
    ensures AllBars(stage, AllLater(timings, delta), proofStartMs + delta) == AllBars(stage, timings, proofStartMs)
  {
    if timings != [] {
      var n := |timings| - 1;
      AllBarsShift(stage, timings[..n], proofStartMs, delta);
      BarsShift(stage, timings[n], proofStartMs, delta);
      assert AllLater(timings, delta)[..n] == AllLater(timings[..n], delta);
    }
  }

  /** Shifting the clocks of the proof, of the manager, and of every worker by
      one amount leaves the whole timeline as it is. */
  lemma ClockShiftKeepsTimeline(view: View, delta: int, registrations: seq<Registration<int>>)
    requires forall k :: 0 <= k < |view.appProofs| ==> CanShift(App, view.appProofs[k], view.proofStartMs, delta)
    requires forall k :: 0 <= k < |view.leafProofs| ==> CanShift(Leaf, view.leafProofs[k], view.proofStartMs, delta)
    requires forall k :: 0 <= k < |view.internalProofs| ==>
             CanShift(Internal, view.internalProofs[k], view.proofStartMs, delta)
    ensures TimelineOf(registrations, Placements(LaterView(view, delta))) == TimelineOf(registrations, Placements(view))
  {
    hide AllBars, TimelineOf, CanShift, AllLater;
    AllBarsShift(App, view.appProofs, view.proofStartMs, delta);
    AllBarsShift(Leaf, view.leafProofs, view.proofStartMs, delta);
    AllBarsShift(Internal, view.internalProofs, view.proofStartMs, delta);
  }

  /** Without a dispatch stamp, a leaf or an internal task moves with the clock
      exactly when the proof starts before the epoch, on either clock. */
  lemma UndispatchedShift(stage: Stage, t: Timing, proofStartMs: int, delta: int)
    requires stage != App && t.dispatchedAtMs == 0
    ensures Bars(stage, Later(t, delta), proofStartMs + delta) == Bars(stage, t, proofStartMs) <==>
              delta == 0 || (proofStartMs >= 0 && proofStartMs + delta >= 0)
  {
  }

  /** Such a leaf starts at 10 ms, and at 0 when every clock is 10 ms later. */
  lemma UndispatchedLeafMoves()
    ensures exists t: Timing, proofStartMs: int, delta: int ::
              && t.dispatchedAtMs == 0 && proofStartMs < 0
              && LeafBars(Later(t, delta), proofStartMs + delta) != LeafBars(t, proofStartMs)
  {
    var t := Timing(0, 0, 0, 0, 20, 0, 0, 0, 0, 0, 0, 0, 0, map[], map[]);
    UndispatchedShift(Leaf, t, -10, 10);
    assert LeafBars(Later(t, 10), -10 + 10) != LeafBars(t, -10);
  }

  /** A timing whose worker clock is later by delta. */
  function Skewed(t: Timing, worker: int, delta: int): Timing {
    if t.worker == worker && t.dispatchedAtMs != 0
    then t.(workerStartMs := t.workerStartMs + delta, workerEndMs := t.workerEndMs + delta)
    else t
  }

  function AllSkewed(timings: seq<Timing>, worker: int, delta: int): seq<Timing> {
    seq(|timings|, k requires 0 <= k < |timings| => Skewed(timings[k], worker, delta))
  }

  function SkewedView(view: View, worker: int, delta: int): View {
    view.(appProofs := AllSkewed(view.appProofs, worker, delta),
          leafProofs := AllSkewed(view.leafProofs, worker, delta),
          internalProofs := AllSkewed(view.internalProofs, worker, delta))
  }

  lemma BarsSkew(stage: Stage, t: Timing, proofStartMs: int, worker: int, delta: int)
    ensures Bars(stage, Skewed(t, worker, delta), proofStartMs) == Bars(stage, t, proofStartMs)
  {
    hide Placed, WithTransport, Sections;
    assert TransportMs(Skewed(t, worker, delta)) == TransportMs(t);
  }

  lemma {:induction false} AllBarsSkew(stage: Stage, timings: seq<Timing>, proofStartMs: int, worker: int, delta: int)
    ensures AllBars(stage, AllSkewed(timings, worker, delta), proofStartMs) == AllBars(stage, timings, proofStartMs)
  {
    hide Bars, Skewed;
    if timings != [] {
      var n := |timings| - 1;
      AllBarsSkew(stage, timings[..n], proofStartMs, worker, delta);
      BarsSkew(stage, timings[n], proofStartMs, worker, delta);
      assert AllSkewed(timings, worker, delta)[..n] == AllSkewed(timings[..n], worker, delta);
    }
  }

  /** The clock of a worker may be off by any amount: on the tasks that carry a
      dispatch stamp it leaves the whole timeline as it is. */
  lemma WorkerSkewKeepsTimeline(view: View, worker: int, delta: int, registrations: seq<Registration<int>>)
    ensures TimelineOf(registrations, Placements(SkewedView(view, worker, delta)))
            == TimelineOf(registrations, Placements(view))
  {
    hide AllBars, TimelineOf, AllSkewed;
    AllBarsSkew(App, view.appProofs, view.proofStartMs, worker, delta);
    AllBarsSkew(Leaf, view.leafProofs, view.proofStartMs, worker, delta);
    AllBarsSkew(Internal, view.internalProofs, view.proofStartMs, worker, delta);
  }

  // ---------- Well-formed timelines ----------

  ghost predicate IsPlacement(placed: Placement<int>) {
    placed.startMs >= 0 && placed.kind < KINDS && IsBreakdown(placed.breakdown, LABELS)
  }

  lemma SectionsWithTransport(subMetrics: map<string, int>, transportMs: int)
    ensures IsBreakdown(Sections(subMetrics), LABELS)
            && IsBreakdown(WithTransport(Sections(subMetrics), transportMs), LABELS)
  {
    SectionsAreExact(SUB_METRICS, subMetrics, 0, 0);
  }

  lemma {:induction false} BarsArePlacements(stage: Stage, timings: seq<Timing>, proofStartMs: int)
    ensures forall k :: 0 <= k < |AllBars(stage, timings, proofStartMs)| ==>
            IsPlacement(AllBars(stage, timings, proofStartMs)[k])
  {
    if timings != [] {
      var last := timings[|timings| - 1];
      BarsArePlacements(stage, timings[..|timings| - 1], proofStartMs);
      SectionsWithTransport(last.subMetrics, TransportMs(last));
      SectionsWithTransport(last.wrapSubMetrics, 0);
    }
  }

  /** Every timeline of the mapper is a stable sort of the placed bars, each
      well formed, over nodes that are exactly the hosts. */
  lemma OpenvmTimelineIsWellFormed(view: View, registrations: seq<Registration<int>>)
    ensures match TimelineOf(registrations, Placements(view))
            case Err(worker) => exists k :: 0 <= k < |Placements(view)| && Placements(view)[k].worker == worker
                                            && IsFirstUnlisted(registrations, Placements(view), k)
            case Ok(pipeline) =>
              && (forall k :: 0 <= k < |Placements(view)| ==> Listed(registrations, Placements(view)[k].worker))
              && (exists from :: IsDrawing(registrations, Placements(view), pipeline.tasks, from))
              && |pipeline.workers| == |registrations|
              && (forall a, b :: 0 <= a < |registrations| && 0 <= b < |registrations| ==>
                    (pipeline.workers[a].node == pipeline.workers[b].node <==>
                      registrations[a].host == registrations[b].host))
              && StableSort.IsStableSort(Before, TasksOf(IndexOf(registrations), Placements(view)), pipeline.tasks)
              && forall k :: 0 <= k < |pipeline.tasks| ==> IsTask(pipeline.tasks[k], |registrations|, KINDS, LABELS)
  {
    hide AllBars, StableSort.IsStableSort, IsTask, Listed, TimelineOf, TasksOf, IsBreakdown, IsFirstUnlisted, IsDrawing;
    FailsOnUnlisted(registrations, Placements(view));
    BarsArePlacements(App, view.appProofs, view.proofStartMs);
    BarsArePlacements(Leaf, view.leafProofs, view.proofStartMs);
    BarsArePlacements(Internal, view.internalProofs, view.proofStartMs);
    assert forall k :: 0 <= k < |Placements(view)| ==> IsPlacement(Placements(view)[k]);
    if TimelineOf(registrations, Placements(view)).Ok? {
      TimelineIsWellFormed(registrations, Placements(view), KINDS, LABELS);
      TimelineNodesAreHosts(registrations, Placements(view));
    }
  }
}
