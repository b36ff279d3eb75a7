/** The task timeline of one proof, and the builder that places task results on
    the proof clock. Times are milliseconds. */
module Timeline {
  import opened Wrappers
  import StableSort

  /** What the id of a task names. */
  datatype TaskId = Segment(start: int) | Range(start: int, end: int) | Layer(layer: int, start: int, end: int)
                  | Instance(airName: string, id: nat) | Fold(airgroup: Option<nat>, id: nat) | NoId

  /** A section is an index into the breakdown labels and its time. */
  type Breakdown = seq<(nat, int)>

  datatype Task = Task(kind: nat, worker: nat, id: TaskId, startMs: int, durationMs: int, breakdown: Breakdown)

  /** A worker runs on the node of its number, which the timeline prints as node1
      and up. */
  datatype Worker = Worker(name: string, node: nat)

  datatype Registration<Key> = Registration(key: Key, name: string, host: string)

  datatype Pipeline = Drawing(workers: seq<Worker>, tasks: seq<Task>)

  /** A task clamped to the proof clock. It is drawn when it has a length. */
  datatype Placement<Key> = Placement(kind: nat, worker: Key, id: TaskId, startMs: int, endMs: int,
                          breakdown: Breakdown) {
    predicate Drawn() {
      startMs < endMs
    }

    /** Where the task before it ends. */
    function Begin(): int {
      if Drawn() then startMs else endMs
    }

    /** The millisecond t is inside the drawn bar. */
    predicate Covers(t: int) {
      startMs <= t < endMs
    }
  }

  function Max(a: int, b: int): int {
    if a >= b then a else b
  }

  /** A task ending endMs after the proof start and lasting durationMs. */
  function Placed<Key>(kind: nat, worker: Key, id: TaskId, endMs: int, durationMs: int,
                       breakdown: Breakdown): Placement<Key> {
    Placement(kind, worker, id, Max(endMs - durationMs, 0), Max(endMs, 0), breakdown)
  }

  function NetworkTransportMs(coordinatorStartMs: int, workerStartMs: int, workerEndMs: int,
                              coordinatorEndMs: int): (ms: int)
    ensures ms >= 0
  {
    Max(coordinatorEndMs - workerEndMs + workerStartMs - coordinatorStartMs, 0)
  }

  /** The transport is what the round trip takes beyond the time on the worker,
      so a clock skew between the two sides cancels out. */
  lemma TransportSplitsRoundTrip(coordinatorStartMs: int, workerStartMs: int, workerEndMs: int,
                                 coordinatorEndMs: int, skew: int)
    ensures var transportMs := NetworkTransportMs(coordinatorStartMs, workerStartMs, workerEndMs, coordinatorEndMs);
            && NetworkTransportMs(coordinatorStartMs, workerStartMs + skew, workerEndMs + skew, coordinatorEndMs)
               == transportMs
            && (workerEndMs - workerStartMs <= coordinatorEndMs - coordinatorStartMs ==>
                  coordinatorEndMs - coordinatorStartMs == transportMs + (workerEndMs - workerStartMs))
  {
  }

  // ---------- Grouping the workers into nodes ----------

  function Hosts<Key>(registrations: seq<Registration<Key>>, count: nat): set<string>
    requires count <= |registrations|
  {
    if count == 0 then {} else Hosts(registrations, count - 1) + {registrations[count - 1].host}
  }

  /** The first registration of the host of the worker i. */
  ghost predicate IsFirst<Key>(registrations: seq<Registration<Key>>, i: nat, first: nat)
    requires i < |registrations|
  {
    first <= i && registrations[first].host == registrations[i].host
      && registrations[first].host !in Hosts(registrations, first)
  }

  /** The number of the node of the worker i: the count of the distinct hosts up
      to the first registration of its host. */
  ghost predicate IsNode<Key>(registrations: seq<Registration<Key>>, i: nat, node: nat)
    requires i < |registrations|
  {
    exists first :: IsFirst(registrations, i, first) && node == |Hosts(registrations, first)| + 1
  }

  /** The nodes of the hosts of the leading count registrations. */
  ghost predicate AreNodes<Key>(registrations: seq<Registration<Key>>, count: nat, nodes: map<string, nat>)
    requires count <= |registrations|
  {
    && nodes.Keys == Hosts(registrations, count)
    && forall j :: 0 <= j < count ==> HasNode(registrations, j, nodes)
  }

  ghost predicate HasNode<Key>(registrations: seq<Registration<Key>>, j: nat, nodes: map<string, nat>)
    requires j < |registrations|
  {
    registrations[j].host in nodes && IsNode(registrations, j, nodes[registrations[j].host])
  }

  lemma NoNodes<Key>(registrations: seq<Registration<Key>>)
    ensures AreNodes(registrations, 0, map[]) && AreWorkers(registrations, []) && IsIndex(registrations, 0, map[])
  {
  }

  lemma {:induction false} HostHasAFirst<Key>(registrations: seq<Registration<Key>>, count: nat, host: string)
    requires count <= |registrations|
    ensures host in Hosts(registrations, count) <==> exists j :: 0 <= j < count && registrations[j].host == host
  {
    if count > 0 { HostHasAFirst(registrations, count - 1, host); }
  }

  /** A host seen before keeps its node, and a new one takes the next number. */
  lemma NodeOfNext<Key>(registrations: seq<Registration<Key>>, i: nat, nodes: map<string, nat>)
    requires i < |registrations| && AreNodes(registrations, i, nodes)
    ensures var host := registrations[i].host;
            IsNode(registrations, i, if host in nodes then nodes[host] else |nodes| + 1)
  {
    var host := registrations[i].host;
    HostHasAFirst(registrations, i, host);
    hide Hosts;
    if host in nodes {
      var j :| 0 <= j < i && registrations[j].host == host;
      assert HasNode(registrations, j, nodes);
      var first :| IsFirst(registrations, j, first) && nodes[host] == |Hosts(registrations, first)| + 1;
      assert IsFirst(registrations, i, first);
    } else {
      assert |nodes| == |nodes.Keys|;
      assert IsFirst(registrations, i, i);
    }
  }

  lemma MapGrows(nodes: map<string, nat>, host: string, node: nat, next: map<string, nat>)
    requires next == if host in nodes then nodes else nodes[host := node]
    ensures next.Keys == nodes.Keys + {host}
    ensures forall other :: other in nodes ==> next[other] == nodes[other]
    ensures host !in nodes ==> next[host] == node
  {
  }

  lemma NextNode<Key>(registrations: seq<Registration<Key>>, i: nat, nodes: map<string, nat>, next: map<string, nat>)
    requires i < |registrations| && AreNodes(registrations, i, nodes)
    requires next.Keys == nodes.Keys + {registrations[i].host}
    requires forall host :: host in nodes ==> next[host] == nodes[host]
    requires IsNode(registrations, i, next[registrations[i].host])
    ensures AreNodes(registrations, i + 1, next)
  {
    hide IsNode;
    forall j | 0 <= j < i ensures HasNode(registrations, j, next) {
      assert HasNode(registrations, j, nodes);
    }
  }

  ghost predicate AreWorkers<Key>(registrations: seq<Registration<Key>>, workers: seq<Worker>) {
    && |workers| <= |registrations|
    && forall i :: 0 <= i < |workers| ==>
         workers[i].name == registrations[i].name && IsNode(registrations, i, workers[i].node)
  }

  /** Every key names its last registration. */
  ghost predicate IsIndex<Key>(registrations: seq<Registration<Key>>, count: nat, index: map<Key, nat>)
    requires count <= |registrations|
  {
    && (forall i :: 0 <= i < count ==> registrations[i].key in index && i <= index[registrations[i].key])
    && (forall key :: key in index ==> index[key] < count && registrations[index[key]].key == key)
  }

  lemma NextWorker<Key>(registrations: seq<Registration<Key>>, workers: seq<Worker>, index: map<Key, nat>, node: nat)
    requires |workers| < |registrations| && AreWorkers(registrations, workers)
             && IsIndex(registrations, |workers|, index)
    requires IsNode(registrations, |workers|, node)
    ensures AreWorkers(registrations, workers + [Worker(registrations[|workers|].name, node)])
    ensures IsIndex(registrations, |workers| + 1, index[registrations[|workers|].key := |workers|])
  {
    hide IsNode;
  }

  lemma {:induction false} HostsGrow<Key>(registrations: seq<Registration<Key>>, a: nat, b: nat)
    requires a < b <= |registrations| && registrations[a].host !in Hosts(registrations, a)
    ensures Hosts(registrations, a) + {registrations[a].host} <= Hosts(registrations, b)
    ensures |Hosts(registrations, a)| < |Hosts(registrations, b)|
  {
    if a + 1 < b { HostsGrow(registrations, a, b - 1); }
    SubsetIsSmaller(Hosts(registrations, a) + {registrations[a].host}, Hosts(registrations, b));
  }

  lemma {:induction false} SubsetIsSmaller<T>(a: set<T>, b: set<T>)
    requires a <= b
    ensures |a| <= |b|
  {
    if a != {} {
      var x :| x in a;
      SubsetIsSmaller(a - {x}, b - {x});
    }
  }

  lemma FirstsAreHosts<Key>(registrations: seq<Registration<Key>>, i: nat, a: nat, j: nat, b: nat)
    requires i < |registrations| && j < |registrations| && IsFirst(registrations, i, a) && IsFirst(registrations, j, b)
    ensures |Hosts(registrations, a)| == |Hosts(registrations, b)| <==> registrations[i].host == registrations[j].host
  {
    if a < b {
      HostsGrow(registrations, a, b);
      assert registrations[a].host in Hosts(registrations, b);
    } else if b < a {
      HostsGrow(registrations, b, a);
      assert registrations[b].host in Hosts(registrations, a);
    }
  }

  function FirstOfHost<Key>(registrations: seq<Registration<Key>>, i: nat, j: nat): (first: nat)
    requires j <= i < |registrations| && registrations[i].host !in Hosts(registrations, j)
    ensures IsFirst(registrations, i, first)
    decreases i - j
  {
    if registrations[j].host == registrations[i].host then j else FirstOfHost(registrations, i, j + 1)
  }

  /** The workers in registration order, each on the node of its host. */
  function WorkersOf<Key>(registrations: seq<Registration<Key>>): (workers: seq<Worker>)
    ensures AreWorkers(registrations, workers) && |workers| == |registrations|
  {
    seq(|registrations|, i requires 0 <= i < |registrations| =>
      Worker(registrations[i].name, |Hosts(registrations, FirstOfHost(registrations, i, 0))| + 1))
  }

  function IndexFrom<Key>(registrations: seq<Registration<Key>>, count: nat): (index: map<Key, nat>)
    requires count <= |registrations|
    ensures IsIndex(registrations, count, index)
  {
    if count == 0 then map[] else IndexFrom(registrations, count - 1)[registrations[count - 1].key := count - 1]
  }

  lemma WorkersAreUnique<Key>(registrations: seq<Registration<Key>>, workers: seq<Worker>)
    requires AreWorkers(registrations, workers) && |workers| == |registrations|
    ensures workers == WorkersOf(registrations)
  {
    hide Hosts;
    var expected := WorkersOf(registrations);
    forall i | 0 <= i < |workers| ensures workers[i] == expected[i] {
      SameNode(registrations, i, workers[i].node, i, expected[i].node);
    }
  }

  lemma IndexIsUnique<Key>(registrations: seq<Registration<Key>>, a: map<Key, nat>, b: map<Key, nat>)
    requires IsIndex(registrations, |registrations|, a) && IsIndex(registrations, |registrations|, b)
    ensures a == b
  {
  }

  lemma SameNode<Key>(registrations: seq<Registration<Key>>, i: nat, node: nat, j: nat, other: nat)
    requires i < |registrations| && j < |registrations| && IsNode(registrations, i, node)
             && IsNode(registrations, j, other)
    ensures node == other <==> registrations[i].host == registrations[j].host
  {
    hide Hosts;
    var a :| IsFirst(registrations, i, a) && node == |Hosts(registrations, a)| + 1;
    var b :| IsFirst(registrations, j, b) && other == |Hosts(registrations, b)| + 1;
    FirstsAreHosts(registrations, i, a, j, b);
  }

  /** Two workers share a node exactly when they share a host. */
  lemma NodesAreHosts<Key>(registrations: seq<Registration<Key>>, i: nat, j: nat)
    requires i < |registrations| && j < |registrations|
    ensures WorkersOf(registrations)[i].node == WorkersOf(registrations)[j].node <==>
            registrations[i].host == registrations[j].host
  {
    hide IsNode, Hosts;
    var workers := WorkersOf(registrations);
    SameNode(registrations, i, workers[i].node, j, workers[j].node);
  }

  // ---------- The builder ----------

  function TaskOf<Key>(index: map<Key, nat>, placed: Placement<Key>): Task {
    Task(placed.kind, if placed.worker in index then index[placed.worker] else 0, placed.id,
         placed.startMs, placed.endMs - placed.startMs, placed.breakdown)
  }

  /** The tasks of the drawn placements, in their order. */
  function TasksOf<Key>(index: map<Key, nat>, placements: seq<Placement<Key>>): seq<Task> {
    if placements == [] then []
    else
      var last := placements[|placements| - 1];
      TasksOf(index, placements[..|placements| - 1]) + (if last.Drawn() then [TaskOf(index, last)] else [])
  }

  /** The first placement, drawn or not, of a worker without a registration. */
  function UnlistedOf<Key>(index: map<Key, nat>, placements: seq<Placement<Key>>): Option<Key> {
    if placements == [] then None
    else
      var earlier := UnlistedOf(index, placements[..|placements| - 1]);
      var last := placements[|placements| - 1].worker;
      if earlier.Some? then earlier else if last in index then None else Some(last)
  }

  /** By start, then by kind. */
  predicate Before(a: Task, b: Task) {
    a.startMs < b.startMs || (a.startMs == b.startMs && a.kind <= b.kind)
  }

  function Built<Key>(workers: seq<Worker>, index: map<Key, nat>, placements: seq<Placement<Key>>)
    : Result<Pipeline, Key>
  {
    match UnlistedOf(index, placements)
    case Some(worker) => Err(worker)
    case None => Ok(Drawing(workers, StableSort.Sort(Before, TasksOf(index, placements))))
  }

  function IndexOf<Key(==)>(registrations: seq<Registration<Key>>): (index: map<Key, nat>)
    ensures IsIndex(registrations, |registrations|, index)
  {
    IndexFrom(registrations, |registrations|)
  }

  /** The timeline of the placements, or the worker that is not listed. */
  function TimelineOf<Key(==)>(registrations: seq<Registration<Key>>, placements: seq<Placement<Key>>)
    : Result<Pipeline, Key>
  {
    Built(WorkersOf(registrations), IndexOf(registrations), placements)
  }

  lemma NothingPlaced<Key>(index: map<Key, nat>)
    ensures TasksOf(index, []) == [] && UnlistedOf(index, []).None?
  {
  }

  class PipelineBuilder<Key(==)> {
    var workers: seq<Worker>
    var workerIndex: map<Key, nat>
    var tasks: seq<Task>
    var unlisted: Option<Key>
    ghost var placements: seq<Placement<Key>>

    ghost predicate Valid()
      reads this
    {
      tasks == TasksOf(workerIndex, placements) && unlisted == UnlistedOf(workerIndex, placements)
    }

    constructor (registrations: seq<Registration<Key>>)
      ensures Valid() && placements == []
      ensures workers == WorkersOf(registrations) && workerIndex == IndexOf(registrations)
    {
      workers, workerIndex, tasks, unlisted, placements := [], map[], [], None, [];
      new;
      hide AreNodes, IsNode, Hosts, AreWorkers, IsIndex, TasksOf, UnlistedOf, WorkersOf, IndexOf;
      NoNodes(registrations);
      var nodes: map<string, nat> := map[];
      for i := 0 to |registrations|
        invariant tasks == [] && unlisted == None && placements == [] && |workers| == i
        invariant AreNodes(registrations, i, nodes)
        invariant AreWorkers(registrations, workers)
        invariant IsIndex(registrations, i, workerIndex)
      {
        var host := registrations[i].host;
        var node := if host in nodes then nodes[host] else |nodes| + 1;
        NodeOfNext(registrations, i, nodes);
        ghost var known := nodes;
        if host !in nodes {
          nodes := nodes[host := node];
        }
        MapGrows(known, host, node, nodes);
        NextNode(registrations, i, known, nodes);
        NextWorker(registrations, workers, workerIndex, node);
        workerIndex := workerIndex[registrations[i].key := |workers|];
        workers := workers + [Worker(registrations[i].name, node)];
      }
      NothingPlaced(workerIndex);
      WorkersAreUnique(registrations, workers);
      IndexIsUnique(registrations, workerIndex, IndexOf(registrations));
    }

    /** Records one task and returns its start, or its end when it has no length. */
    method Place(kind: nat, worker: Key, id: TaskId, endMs: int, durationMs: int, breakdown: Breakdown)
      returns (begin: int)
      requires Valid()
      modifies this
      ensures Valid() && workers == old(workers) && workerIndex == old(workerIndex)
      ensures placements == old(placements) + [Placed(kind, worker, id, endMs, durationMs, breakdown)]
      ensures begin == Placed(kind, worker, id, endMs, durationMs, breakdown).Begin()
    {
      ghost var placed := Placed(kind, worker, id, endMs, durationMs, breakdown);
      placements := placements + [placed];
      assert placements[..|placements| - 1] == old(placements);
      var index := if worker in workerIndex then workerIndex[worker] else 0;
      if worker !in workerIndex && unlisted.None? {
        unlisted := Some(worker);
      }
      var startMs, clampedEndMs := Max(endMs - durationMs, 0), Max(endMs, 0);
      if startMs >= clampedEndMs {
        return clampedEndMs;
      }
      tasks := tasks + [Task(kind, index, id, startMs, clampedEndMs - startMs, breakdown)];
      return startMs;
    }

    method Pipeline() returns (r: Result<Pipeline, Key>)
      requires Valid()
      modifies this`tasks
      ensures r == Built(workers, workerIndex, placements)
    {
      if unlisted.Some? { return Err(unlisted.value); }
      tasks := StableSort.Sort(Before, tasks);
      return Ok(Drawing(workers, tasks));
    }
  }

  // ---------- Every timeline is well formed ----------

  /** Breakdown indices increase and stay below the count of the labels. */
  ghost predicate IsBreakdown(breakdown: Breakdown, labels: nat) {
    && (forall i :: 0 <= i < |breakdown| ==> breakdown[i].0 < labels)
    && (forall i, j :: 0 <= i < j < |breakdown| ==> breakdown[i].0 < breakdown[j].0)
  }

  ghost predicate IsTask(task: Task, workers: nat, kinds: nat, labels: nat) {
    task.startMs >= 0 && task.durationMs > 0 && task.worker < workers && task.kind < kinds
      && IsBreakdown(task.breakdown, labels)
  }

  lemma BeforeIsTotal()
    ensures StableSort.TotalPreorder(Before)
  {
  }

  lemma {:induction false} TasksAreWellFormed<Key>(registrations: seq<Registration<Key>>, index: map<Key, nat>,
                                                   placements: seq<Placement<Key>>, kinds: nat, labels: nat)
    requires IsIndex(registrations, |registrations|, index) && UnlistedOf(index, placements).None?
    requires forall k :: 0 <= k < |placements| ==>
               placements[k].startMs >= 0 && placements[k].kind < kinds && IsBreakdown(placements[k].breakdown, labels)
    ensures forall k :: 0 <= k < |TasksOf(index, placements)| ==>
            IsTask(TasksOf(index, placements)[k], |registrations|, kinds, labels)
  {
    if placements != [] {
      TasksAreWellFormed(registrations, index, placements[..|placements| - 1], kinds, labels);
    }
  }

  // ---------- Which placement every task draws ----------

  /** The task draws the placement k, on the last worker registered under its key. */
  ghost predicate IsDrawnFrom<Key>(registrations: seq<Registration<Key>>, placements: seq<Placement<Key>>, task: Task,
                                   k: nat) {
    && k < |placements|
    && var placed := placements[k];
    && placed.startMs < placed.endMs
    && task.kind == placed.kind && task.id == placed.id && task.breakdown == placed.breakdown
    && task.startMs == placed.startMs && task.startMs + task.durationMs == placed.endMs
    && task.worker < |registrations| && registrations[task.worker].key == placed.worker
    && forall later :: task.worker < later < |registrations| ==> registrations[later].key != placed.worker
  }

  /** By start, then by kind, then in the order they were placed. */
  predicate DrawnBefore(a: Task, j: nat, b: Task, k: nat) {
    a.startMs < b.startMs || (a.startMs == b.startMs && (a.kind < b.kind || (a.kind == b.kind && j < k)))
  }

  /** Every task draws the placement of its number, and every placement with a
      length is drawn, once. */
  ghost predicate IsDrawing<Key>(registrations: seq<Registration<Key>>, placements: seq<Placement<Key>>,
                                 tasks: seq<Task>, from: seq<nat>) {
    && |from| == |tasks|
    && (forall i :: 0 <= i < |tasks| ==> IsDrawnFrom(registrations, placements, tasks[i], from[i]))
    && (forall k :: 0 <= k < |placements| && placements[k].startMs < placements[k].endMs ==> k in from)
    && (forall i, j :: 0 <= i < j < |tasks| ==> DrawnBefore(tasks[i], from[i], tasks[j], from[j]))
  }

  /** The numbers of the drawn placements. */
  function DrawnAt<Key>(placements: seq<Placement<Key>>): (drawn: seq<nat>)
    ensures forall i :: 0 <= i < |drawn| ==> drawn[i] < |placements|
  {
    if placements == [] then []
    else
      var n := |placements| - 1;
      DrawnAt(placements[..n]) + (if placements[n].Drawn() then [n] else [])
  }

  ghost predicate AreDrawn<Key>(index: map<Key, nat>, placements: seq<Placement<Key>>, drawn: seq<nat>,
                                tasks: seq<Task>) {
    && |tasks| == |drawn|
    && forall i :: 0 <= i < |drawn| ==>
         drawn[i] < |placements| && placements[drawn[i]].Drawn() && tasks[i] == TaskOf(index, placements[drawn[i]])
  }

  lemma {:induction false} DrawnTasks<Key>(index: map<Key, nat>, placements: seq<Placement<Key>>)
    ensures AreDrawn(index, placements, DrawnAt(placements), TasksOf(index, placements))
  {
    if placements != [] {
      hide TaskOf;
      DrawnTasks(index, placements[..|placements| - 1]);
    }
  }

  lemma {:induction false} DrawnAscend<Key>(placements: seq<Placement<Key>>, i: nat, j: nat)
    requires i < j < |DrawnAt(placements)|
    ensures DrawnAt(placements)[i] < DrawnAt(placements)[j]
  {
    var n := |placements| - 1;
    if j < |DrawnAt(placements[..n])| { DrawnAscend(placements[..n], i, j); }
  }

  lemma {:induction false} DrawnAreAll<Key>(placements: seq<Placement<Key>>, k: nat)
    requires k < |placements| && placements[k].Drawn()
    ensures k in DrawnAt(placements)
  {
    var n := |placements| - 1;
    if k < n { DrawnAreAll(placements[..n], k); }
  }

  lemma TaskIsDrawnFrom<Key>(registrations: seq<Registration<Key>>, index: map<Key, nat>,
                             placements: seq<Placement<Key>>, k: nat)
    requires k < |placements| && placements[k].Drawn() && IsIndex(registrations, |registrations|, index)
    requires placements[k].worker in index
    ensures IsDrawnFrom(registrations, placements, TaskOf(index, placements[k]), k)
  {
  }

  lemma {:induction false} ListedAreIndexed<Key>(index: map<Key, nat>, placements: seq<Placement<Key>>, k: nat)
    requires UnlistedOf(index, placements).None? && k < |placements|
    ensures placements[k].worker in index
  {
    var n := |placements| - 1;
    if k < n { ListedAreIndexed(index, placements[..n], k); }
  }

  /** Every timeline draws the placements that have a length, each once, on their
      workers, sorted by start, kind and order of placing. */
  lemma TimelineDraws<Key>(registrations: seq<Registration<Key>>, placements: seq<Placement<Key>>)
    returns (from: seq<nat>)
    requires TimelineOf(registrations, placements).Ok?
    ensures IsDrawing(registrations, placements, TimelineOf(registrations, placements).value.tasks, from)
  {
    var index := IndexOf(registrations);
    BeforeIsTotal();
    var order := StableSort.SortHasOrder(Before, TasksOf(index, placements));
    from := DrawnInOrder(registrations, index, placements, order);
  }

  lemma DrawnInOrder<Key>(registrations: seq<Registration<Key>>, index: map<Key, nat>,
                          placements: seq<Placement<Key>>, order: seq<nat>)
    returns (from: seq<nat>)
    requires IsIndex(registrations, |registrations|, index) && UnlistedOf(index, placements).None?
    requires StableSort.IsOrder(Before, TasksOf(index, placements), order)
    ensures IsDrawing(registrations, placements, StableSort.Picked(TasksOf(index, placements), order), from)
  {
    var placed, drawn := TasksOf(index, placements), DrawnAt(placements);
    var tasks := StableSort.Picked(placed, order);
    DrawnTasks(index, placements);
    hide TasksOf, TaskOf, DrawnAt, IsDrawnFrom, UnlistedOf, IsIndex, DrawnBefore;
    from := seq(|order|, i requires 0 <= i < |order| => drawn[order[i]]);
    forall i | 0 <= i < |tasks| ensures IsDrawnFrom(registrations, placements, tasks[i], from[i]) {
      ListedAreIndexed(index, placements, from[i]);
      TaskIsDrawnFrom(registrations, index, placements, from[i]);
    }
    forall k | 0 <= k < |placements| && placements[k].startMs < placements[k].endMs ensures k in from {
      DrawnAreAll(placements, k);
      var j: nat :| 0 <= j < |drawn| && drawn[j] == k;
      assert j in order;
      var i :| 0 <= i < |order| && order[i] == j;
      assert from[i] == k;
    }
    forall i, j | 0 <= i < j < |tasks| ensures DrawnBefore(tasks[i], from[i], tasks[j], from[j]) {
      assert StableSort.Precedes(Before, placed, order[i], order[j]);
      DrawnInRank(placements, placed, order[i], order[j]);
    }
  }

  lemma DrawnInRank<Key>(placements: seq<Placement<Key>>, placed: seq<Task>, i: nat, j: nat)
    requires |placed| == |DrawnAt(placements)| && i != j && StableSort.Precedes(Before, placed, i, j)
    ensures DrawnBefore(placed[i], DrawnAt(placements)[i], placed[j], DrawnAt(placements)[j])
  {
    hide DrawnAt;
    if i < j { DrawnAscend(placements, i, j); }
  }

  /** The tasks of a timeline are the placed ones, sorted by start and then by
      kind and otherwise in the order they were placed, and each is well formed. */
  lemma TimelineIsWellFormed<Key>(registrations: seq<Registration<Key>>, placements: seq<Placement<Key>>, kinds: nat,
                                  labels: nat)
    requires TimelineOf(registrations, placements).Ok?
    requires forall k :: 0 <= k < |placements| ==>
               placements[k].startMs >= 0 && placements[k].kind < kinds && IsBreakdown(placements[k].breakdown, labels)
    ensures var placed := TasksOf(IndexOf(registrations), placements);
            var tasks := TimelineOf(registrations, placements).value.tasks;
            && StableSort.IsStableSort(Before, placed, tasks) && multiset(tasks) == multiset(placed)
            && forall k :: 0 <= k < |tasks| ==> IsTask(tasks[k], |registrations|, kinds, labels)
    ensures exists from :: IsDrawing(registrations, placements, TimelineOf(registrations, placements).value.tasks, from)
  {
    hide WorkersOf, IsIndex, StableSort.Sort, StableSort.IsStableSort, IsTask, IsDrawing;
    var from := TimelineDraws(registrations, placements);
    BeforeIsTotal();
    var index := IndexOf(registrations);
    var placed := TasksOf(index, placements);
    var tasks := TimelineOf(registrations, placements).value.tasks;
    StableSort.SortIsStable(Before, placed);
    TasksAreWellFormed(registrations, index, placements, kinds, labels);
    forall k | 0 <= k < |tasks| ensures IsTask(tasks[k], |registrations|, kinds, labels) {
      assert tasks[k] in multiset(tasks);
      assert tasks[k] in placed;
    }
  }

  /** A timeline lists every registered worker by its name, and two share a node exactly when
      they share a host. */
  lemma TimelineNodesAreHosts<Key>(registrations: seq<Registration<Key>>, placements: seq<Placement<Key>>)
    requires TimelineOf(registrations, placements).Ok?
    ensures var workers := TimelineOf(registrations, placements).value.workers;
            && |workers| == |registrations|
            && (forall a :: 0 <= a < |registrations| ==> workers[a].name == registrations[a].name)
            && forall a, b :: 0 <= a < |registrations| && 0 <= b < |registrations| ==>
                 (workers[a].node == workers[b].node <==> registrations[a].host == registrations[b].host)
  {
    var workers := WorkersOf(registrations);
    hide TasksOf, UnlistedOf, Hosts, StableSort.Sort;
    assert TimelineOf(registrations, placements).value.workers == workers;
    assert forall a :: 0 <= a < |registrations| ==> workers[a].name == registrations[a].name;
    hide WorkersOf, AreWorkers;
    forall a, b | 0 <= a < |registrations| && 0 <= b < |registrations|
      ensures workers[a].node == workers[b].node <==> registrations[a].host == registrations[b].host
    {
      NodesAreHosts(registrations, a, b);
    }
  }

  lemma {:induction false} UnlistedIsFirst<Key>(registrations: seq<Registration<Key>>, index: map<Key, nat>,
                                                placements: seq<Placement<Key>>)
    requires IsIndex(registrations, |registrations|, index)
    ensures match UnlistedOf(index, placements)
            case None => forall k :: 0 <= k < |placements| ==> Listed(registrations, placements[k].worker)
            case Some(worker) =>
              exists k :: 0 <= k < |placements| && placements[k].worker == worker
                          && IsFirstUnlisted(registrations, placements, k)
  {
    if placements != [] {
      var n := |placements| - 1;
      UnlistedIsFirst(registrations, index, placements[..n]);
      assert forall k :: 0 <= k < n ==> placements[..n][k] == placements[k];
      assert Listed(registrations, placements[n].worker) <==> placements[n].worker in index;
      if UnlistedOf(index, placements).Some? {
        if UnlistedOf(index, placements[..n]).Some? {
          var k :| 0 <= k < n && placements[..n][k].worker == UnlistedOf(index, placements).value
            && IsFirstUnlisted(registrations, placements[..n], k);
          assert IsFirstUnlisted(registrations, placements, k);
        } else {
          assert IsFirstUnlisted(registrations, placements, n);
        }
      }
    }
  }

  ghost predicate IsFirstUnlisted<Key>(registrations: seq<Registration<Key>>, placements: seq<Placement<Key>>, k: nat)
    requires k < |placements|
  {
    && !Listed(registrations, placements[k].worker)
    && forall j :: 0 <= j < k ==> Listed(registrations, placements[j].worker)
  }

  /** Building fails exactly when some placement, drawn or not, names a worker
      that is not registered, and it names the first such worker. */
  lemma FailsOnUnlisted<Key>(registrations: seq<Registration<Key>>, placements: seq<Placement<Key>>)
    ensures match TimelineOf(registrations, placements)
            case Ok(_) => forall k :: 0 <= k < |placements| ==> Listed(registrations, placements[k].worker)
            case Err(worker) =>
              exists k :: 0 <= k < |placements| && placements[k].worker == worker
                          && IsFirstUnlisted(registrations, placements, k)
  {
    hide WorkersOf, Listed, IsFirstUnlisted, TasksOf, UnlistedOf, StableSort.Sort;
    UnlistedIsFirst(registrations, IndexOf(registrations), placements);
  }

  ghost predicate Listed<Key>(registrations: seq<Registration<Key>>, worker: Key) {
    exists i :: 0 <= i < |registrations| && registrations[i].key == worker
  }

  // ---------- Sections of a bar ----------

  /** The labels from index on that the metrics report, in label order. */
  function SectionsFrom(labels: seq<string>, metrics: map<string, int>, index: nat, offset: nat): (sections: Breakdown)
    requires index <= |labels|
    decreases |labels| - index
  {
    if index == |labels| then []
    else
      var rest := SectionsFrom(labels, metrics, index + 1, offset);
      if labels[index] in metrics then [(offset + index, metrics[labels[index]])] + rest else rest
  }

  /** Every label that the metrics report has its section, in order, and there is
      no other. */
  lemma {:induction false} SectionsAreExact(labels: seq<string>, metrics: map<string, int>, index: nat, offset: nat)
    requires index <= |labels|
    ensures IsBreakdown(SectionsFrom(labels, metrics, index, offset), offset + |labels|)
    ensures forall k :: 0 <= k < |SectionsFrom(labels, metrics, index, offset)| ==>
            offset + index <= SectionsFrom(labels, metrics, index, offset)[k].0
    ensures forall section :: section in SectionsFrom(labels, metrics, index, offset) <==>
              offset + index <= section.0 < offset + |labels| && labels[section.0 - offset] in metrics
                && section.1 == metrics[labels[section.0 - offset]]
    decreases |labels| - index
  {
    if index < |labels| {
      SectionsAreExact(labels, metrics, index + 1, offset);
    }
  }
}
