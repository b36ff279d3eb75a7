/** Placing the OpenVM workers: which configurations are refused, how workers
    group by host, and how a host's CPUs are split among its workers. */
module Placement {
  import opened Wrappers

  const WORKER_PREFIX := "openvm-worker-"
  const WORKER_PORT_BASE := 8001
  const LOOPBACK := "127.0.0.1"

  datatype Node = Node(ssh: string, ip: string)

  datatype Worker = Worker(node: Node, deviceIds: seq<int>)

  datatype Config = Config(coordinator: Node, workers: seq<Worker>)

  datatype Fault = NoWorkers | BadGpu(worker: nat) | NotOneDevice(worker: nat) | NoCoordinatorAddress(worker: nat)
                 | NoWorkerAddress(worker: nat) | RepeatedGpu(worker: nat) | RepeatedUrl(worker: nat)

  // ---------- Numbers in names ----------

  function Digit(d: nat): char
    requires d < 10
  {
    "0123456789"[d]
  }

  function Decimal(n: nat): (text: string) {
    if n < 10 then [Digit(n)] else Decimal(n / 10) + [Digit(n % 10)]
  }

  /** The number that the digits spell, the first one the highest. */
  function Spelled(text: string): nat {
    if text == [] then 0 else 10 * Spelled(text[..|text| - 1]) + DigitOf(text[|text| - 1])
  }

  function DigitOf(c: char): nat {
    match c
    case '1' => 1 case '2' => 2 case '3' => 3 case '4' => 4 case '5' => 5
    case '6' => 6 case '7' => 7 case '8' => 8 case '9' => 9 case _ => 0
  }

  /** A number is printed in decimal, without leading zeros. */
  lemma {:induction false} DecimalSpells(n: nat)
    ensures Spelled(Decimal(n)) == n
    ensures n > 0 ==> Decimal(n)[0] != '0'
  {
    if n >= 10 {
      DecimalSpells(n / 10);
      assert Decimal(n)[..|Decimal(n)| - 1] == Decimal(n / 10);
      DecimalEnds(n / 10);
      DigitSpells(n % 10);
    } else {
      assert Decimal(n)[..0] == [];
      DigitSpells(n);
    }
  }

  lemma DigitSpells(d: nat)
    requires d < 10
    ensures DigitOf(Digit(d)) == d && (Digit(d) == '0' <==> d == 0)
  {
  }

  lemma DigitIsInjective(a: nat, b: nat)
    requires a < 10 && b < 10 && Digit(a) == Digit(b)
    ensures a == b
  {
  }

  lemma {:induction false} DecimalIsInjective(a: nat, b: nat)
    requires Decimal(a) == Decimal(b)
    ensures a == b
  {
    DecimalEnds(a);
    DecimalEnds(b);
    DigitIsInjective(a % 10, b % 10);
    if a >= 10 && b >= 10 {
      assert Decimal(a)[..|Decimal(a)| - 1] == Decimal(a / 10) && Decimal(b)[..|Decimal(b)| - 1] == Decimal(b / 10);
      DecimalIsInjective(a / 10, b / 10);
    }
  }

  lemma {:induction false} DecimalEnds(n: nat)
    ensures Decimal(n) != [] && Decimal(n)[|Decimal(n)| - 1] == Digit(n % 10)
    ensures n >= 10 <==> |Decimal(n)| > 1
  {
    if n >= 10 { DecimalEnds(n / 10); }
  }

  lemma {:induction false} DecimalHasDigits(n: nat, mark: char)
    requires mark !in "0123456789"
    ensures mark !in Decimal(n)
  {
    if n >= 10 { DecimalHasDigits(n / 10, mark); }
  }

  /** A text, a mark that is no digit, and a number can be told apart. */
  lemma MarkedIsInjective(a: string, b: string, mark: char, m: nat, n: nat)
    requires mark !in "0123456789" && a + [mark] + Decimal(m) == b + [mark] + Decimal(n)
    ensures a == b && m == n
  {
    var whole := a + [mark] + Decimal(m);
    DecimalHasDigits(m, mark);
    DecimalHasDigits(n, mark);
    MarkIsNotLater(a, b, mark, Decimal(m), Decimal(n));
    MarkIsNotLater(b, a, mark, Decimal(n), Decimal(m));
    assert a == whole[..|a|] && b == whole[..|b|];
    assert Decimal(m) == whole[|a| + 1..] && Decimal(n) == whole[|b| + 1..];
    DecimalIsInjective(m, n);
  }

  lemma MarkIsNotLater(a: string, b: string, mark: char, x: string, y: string)
    requires a + [mark] + x == b + [mark] + y && mark !in x
    ensures |b| <= |a|
  {
    var whole := a + [mark] + x;
    assert whole[|b|] == mark;
    assert forall i :: |a| < i < |whole| ==> whole[i] == x[i - |a| - 1];
  }

  // ---------- Names and addresses ----------

  function WorkerContainer(gpu: nat): string {
    WORKER_PREFIX + Decimal(gpu)
  }

  function WorkerPort(gpu: nat): nat {
    WORKER_PORT_BASE + gpu
  }

  function WorkerHost(worker: Worker): string {
    if worker.node.ip == "" then LOOPBACK else worker.node.ip
  }

  function WorkerUrl(worker: Worker): string
    requires HasOneGpu(worker)
  {
    "http://" + WorkerHost(worker) + ":" + Decimal(WorkerPort(worker.deviceIds[0]))
  }

  function GpuKey(worker: Worker): string
    requires HasOneGpu(worker)
  {
    worker.node.ssh + "/" + Decimal(worker.deviceIds[0])
  }

  ghost predicate HasOneGpu(worker: Worker) {
    |worker.deviceIds| == 1 && worker.deviceIds[0] >= 0
  }

  lemma KeysAreInjective(a: Worker, b: Worker)
    requires HasOneGpu(a) && HasOneGpu(b)
    ensures GpuKey(a) == GpuKey(b) <==> a.node.ssh == b.node.ssh && a.deviceIds[0] == b.deviceIds[0]
    ensures WorkerUrl(a) == WorkerUrl(b) <==> WorkerHost(a) == WorkerHost(b) && a.deviceIds[0] == b.deviceIds[0]
  {
    if GpuKey(a) == GpuKey(b) { MarkedIsInjective(a.node.ssh, b.node.ssh, '/', a.deviceIds[0], b.deviceIds[0]); }
    if WorkerUrl(a) == WorkerUrl(b) {
      MarkedIsInjective("http://" + WorkerHost(a), "http://" + WorkerHost(b), ':', WorkerPort(a.deviceIds[0]),
        WorkerPort(b.deviceIds[0]));
      assert WorkerHost(a) == ("http://" + WorkerHost(a))[7..] && WorkerHost(b) == ("http://" + WorkerHost(b))[7..];
    }
  }

  // ---------- Validation ----------

  /** Names a device, none negative and none twice. */
  ghost predicate IsGpu(ids: seq<int>) {
    ids != [] && (forall i :: 0 <= i < |ids| ==> ids[i] >= 0) && forall i, j :: 0 <= i < j < |ids| ==> ids[i] != ids[j]
  }

  method ValidateGpu(ids: seq<int>) returns (ok: bool)
    ensures ok <==> IsGpu(ids)
  {
    if |ids| == 0 { return false; }
    var seen: set<int> := {};
    for k := 0 to |ids|
      invariant seen == set i | 0 <= i < k :: ids[i]
      invariant forall i :: 0 <= i < k ==> ids[i] >= 0
      invariant forall i, j :: 0 <= i < j < k ==> ids[i] != ids[j]
    {
      if ids[k] < 0 || ids[k] in seen { return false; }
      seen := seen + {ids[k]};
    }
    return true;
  }

  ghost predicate SharesGpu(workers: seq<Worker>, i: nat, j: nat)
    requires i < |workers| && j < |workers|
  {
    workers[i].node.ssh == workers[j].node.ssh && workers[i].deviceIds == workers[j].deviceIds
  }

  ghost predicate SharesUrl(workers: seq<Worker>, i: nat, j: nat)
    requires i < |workers| && j < |workers|
  {
    WorkerHost(workers[i]) == WorkerHost(workers[j]) && workers[i].deviceIds == workers[j].deviceIds
  }

  /** What is wrong with the worker i, after the workers before it passed. */
  ghost function WorkerFault(config: Config, i: nat): Option<Fault>
    requires i < |config.workers|
  {
    var worker := config.workers[i];
    var remote := worker.node.ssh != config.coordinator.ssh;
    if !IsGpu(worker.deviceIds) then Some(BadGpu(i))
    else if |worker.deviceIds| != 1 then Some(NotOneDevice(i))
    else if remote && config.coordinator.ip == "" then Some(NoCoordinatorAddress(i))
    else if remote && worker.node.ip == "" then Some(NoWorkerAddress(i))
    else if exists j :: 0 <= j < i && SharesGpu(config.workers, j, i) then Some(RepeatedGpu(i))
    else if exists j :: 0 <= j < i && SharesUrl(config.workers, j, i) then Some(RepeatedUrl(i))
    else None
  }

  ghost predicate IsValid(config: Config) {
    config.workers != [] && forall i :: 0 <= i < |config.workers| ==> WorkerFault(config, i).None?
  }

  ghost predicate IsFirstFault(config: Config, i: nat, fault: Option<Fault>)
    requires i < |config.workers|
  {
    fault == WorkerFault(config, i) && forall j :: 0 <= j < i ==> WorkerFault(config, j).None?
  }

  /** Accepts exactly the configurations without a fault, and names the first one. */
  method Validate(config: Config) returns (fault: Option<Fault>)
    ensures fault.None? <==> IsValid(config)
    ensures fault == Some(NoWorkers) <==> config.workers == []
    ensures fault.Some? && config.workers != [] ==>
            exists i: nat :: i < |config.workers| && IsFirstFault(config, i, fault)
  {
    hide Decimal, IsGpu;
    var workers := config.workers;
    if |workers| == 0 { return Some(NoWorkers); }
    var seenGpu: set<string> := {};
    var seenUrl: set<string> := {};
    for i := 0 to |workers|
      invariant forall j :: 0 <= j < i ==> HasOneGpu(workers[j]) && WorkerFault(config, j).None?
      invariant seenGpu == set j | 0 <= j < i :: GpuKey(workers[j])
      invariant seenUrl == set j | 0 <= j < i :: WorkerUrl(workers[j])
    {
      var worker := workers[i];
      var ok := ValidateGpu(worker.deviceIds);
      if !ok {
        assert IsFirstFault(config, i, Some(BadGpu(i)));
        return Some(BadGpu(i));
      }
      if |worker.deviceIds| != 1 {
        assert IsFirstFault(config, i, Some(NotOneDevice(i)));
        return Some(NotOneDevice(i));
      }
      GpuIsOne(worker.deviceIds);
      var remote := worker.node.ssh != config.coordinator.ssh;
      if remote && config.coordinator.ip == "" {
        assert IsFirstFault(config, i, Some(NoCoordinatorAddress(i)));
        return Some(NoCoordinatorAddress(i));
      }
      if remote && worker.node.ip == "" {
        assert IsFirstFault(config, i, Some(NoWorkerAddress(i)));
        return Some(NoWorkerAddress(i));
      }
      RepeatsAreShared(workers, i);
      if GpuKey(worker) in seenGpu {
        assert IsFirstFault(config, i, Some(RepeatedGpu(i)));
        return Some(RepeatedGpu(i));
      }
      seenGpu := seenGpu + {GpuKey(worker)};
      if WorkerUrl(worker) in seenUrl {
        assert IsFirstFault(config, i, Some(RepeatedUrl(i)));
        return Some(RepeatedUrl(i));
      }
      seenUrl := seenUrl + {WorkerUrl(worker)};
    }
    return None;
  }

  lemma GpuIsOne(ids: seq<int>)
    requires IsGpu(ids)
    ensures ids[0] >= 0
  {
  }

  lemma RepeatsAreShared(workers: seq<Worker>, i: nat)
    requires i < |workers| && forall j :: 0 <= j <= i ==> HasOneGpu(workers[j])
    ensures (exists j :: 0 <= j < i && GpuKey(workers[j]) == GpuKey(workers[i])) <==>
            exists j :: 0 <= j < i && SharesGpu(workers, j, i)
    ensures (exists j :: 0 <= j < i && WorkerUrl(workers[j]) == WorkerUrl(workers[i])) <==>
            exists j :: 0 <= j < i && SharesUrl(workers, j, i)
  {
    forall j | 0 <= j < i
      ensures GpuKey(workers[j]) == GpuKey(workers[i]) <==> SharesGpu(workers, j, i)
      ensures WorkerUrl(workers[j]) == WorkerUrl(workers[i]) <==> SharesUrl(workers, j, i)
    {
      KeysAreInjective(workers[j], workers[i]);
      hide Decimal;
      assert workers[i].deviceIds == [workers[i].deviceIds[0]] && workers[j].deviceIds == [workers[j].deviceIds[0]];
    }
  }

  /** The configurations that are accepted: every worker owns one GPU, a worker off
      the coordinator's host has an address and so has the coordinator, and no two
      workers share a GPU of a host or an address with its port. */
  lemma ValidIsExact(config: Config)
    ensures IsValid(config) <==>
              && config.workers != []
              && (forall i :: 0 <= i < |config.workers| ==> HasOneGpu(config.workers[i]))
              && (forall i :: 0 <= i < |config.workers| && config.workers[i].node.ssh != config.coordinator.ssh ==>
                    config.coordinator.ip != "" && config.workers[i].node.ip != "")
              && (forall i, j :: 0 <= i < j < |config.workers| ==> AreApart(config.workers[i], config.workers[j]))
  {
    hide Decimal;
    var workers := config.workers;
    if IsValid(config) {
      forall i | 0 <= i < |workers| ensures HasOneGpu(workers[i]) {
        assert WorkerFault(config, i).None?;
      }
      forall i | 0 <= i < |workers| && workers[i].node.ssh != config.coordinator.ssh
        ensures config.coordinator.ip != "" && workers[i].node.ip != ""
      {
        assert WorkerFault(config, i).None?;
      }
      forall i, j | 0 <= i < j < |workers| ensures AreApart(workers[i], workers[j]) {
        assert WorkerFault(config, j).None?;
        assert !SharesGpu(workers, i, j) && !SharesUrl(workers, i, j);
        OneGpuIsEqual(workers[i], workers[j]);
      }
    } else if workers != [] && forall i :: 0 <= i < |workers| ==> HasOneGpu(workers[i]) {
      var i :| 0 <= i < |workers| && WorkerFault(config, i).Some?;
      assert IsGpu(workers[i].deviceIds);
      if j :| 0 <= j < i && (SharesGpu(workers, j, i) || SharesUrl(workers, j, i)) {
        OneGpuIsEqual(workers[j], workers[i]);
        assert !AreApart(workers[j], workers[i]);
      }
    }
  }

  /** The two differ in host or GPU, and in address or GPU. An address that is not
      given is the loopback. */
  predicate AreApart(a: Worker, b: Worker) {
    a.deviceIds == b.deviceIds ==>
      && a.node.ssh != b.node.ssh
      && (if a.node.ip == "" then "127.0.0.1" else a.node.ip) != (if b.node.ip == "" then "127.0.0.1" else b.node.ip)
  }

  lemma OneGpuIsEqual(a: Worker, b: Worker)
    requires HasOneGpu(a) && HasOneGpu(b)
    ensures a.deviceIds == b.deviceIds <==> a.deviceIds[0] == b.deviceIds[0]
  {
    assert a.deviceIds == [a.deviceIds[0]] && b.deviceIds == [b.deviceIds[0]];
  }

  // ---------- Grouping by host ----------

  datatype Indexed = Indexed(worker: Worker, proverId: nat)

  datatype Group = Group(ssh: string, workers: seq<Indexed>)

  /** The hosts of the leading count workers, in the order they first appear. */
  function Hosts(workers: seq<Worker>, count: nat): seq<string>
    requires count <= |workers|
  {
    if count == 0 then []
    else
      var earlier := Hosts(workers, count - 1);
      if workers[count - 1].node.ssh in earlier then earlier else earlier + [workers[count - 1].node.ssh]
  }

  /** The workers of one host among the leading count, in configuration order. */
  function Members(workers: seq<Worker>, count: nat, ssh: string): seq<Indexed>
    requires count <= |workers|
  {
    if count == 0 then []
    else
      Members(workers, count - 1, ssh)
      + (if workers[count - 1].node.ssh == ssh then [Indexed(workers[count - 1], count - 1)] else [])
  }

  function Groups(workers: seq<Worker>, count: nat): seq<Group>
    requires count <= |workers|
  {
    var hosts := Hosts(workers, count);
    seq(|hosts|, g requires 0 <= g < |hosts| => Group(hosts[g], Members(workers, count, hosts[g])))
  }

  method WorkerHosts(workers: seq<Worker>) returns (groups: seq<Group>)
    ensures groups == Groups(workers, |workers|)
  {
    groups := [];
    var index: map<string, nat> := map[];
    for i := 0 to |workers|
      invariant groups == Groups(workers, i)
      invariant forall ssh :: ssh in index <==> ssh in Hosts(workers, i)
      invariant forall ssh :: ssh in index ==> index[ssh] < |groups| && groups[index[ssh]].ssh == ssh
    {
      var worker := workers[i];
      ghost var before := groups;
      if worker.node.ssh !in index {
        index := index[worker.node.ssh := |groups|];
        groups := groups + [Group(worker.node.ssh, [])];
      }
      var hostIndex := index[worker.node.ssh];
      groups := groups[hostIndex := groups[hostIndex].(workers := groups[hostIndex].workers + [Indexed(worker, i)])];
      OneMoreWorker(workers, i, before, groups, hostIndex);
    }
  }

  lemma OneMoreWorker(workers: seq<Worker>, i: nat, before: seq<Group>, after: seq<Group>, at: nat)
    requires i < |workers| && before == Groups(workers, i) && at < |after|
    requires var ssh := workers[i].node.ssh;
             var opening := if ssh in Hosts(workers, i) then before else before + [Group(ssh, [])];
             && at < |opening| && opening[at].ssh == ssh
             && after == opening[at := opening[at].(workers := opening[at].workers + [Indexed(workers[i], i)])]
    ensures after == Groups(workers, i + 1)
  {
    HostsAreDistinct(workers, i);
    HostsAreExact(workers, i, workers[i].node.ssh);
    var next := Groups(workers, i + 1);
    forall g | 0 <= g < |after| ensures g < |next| && after[g] == next[g] {
      HostsAreExact(workers, i, after[g].ssh);
    }
  }

  lemma {:induction false} HostsAreDistinct(workers: seq<Worker>, count: nat)
    requires count <= |workers|
    ensures forall g, h :: 0 <= g < h < |Hosts(workers, count)| ==> Hosts(workers, count)[g] != Hosts(workers, count)[h]
  {
    if count > 0 { HostsAreDistinct(workers, count - 1); }
  }

  lemma {:induction false} HostsAreExact(workers: seq<Worker>, count: nat, ssh: string)
    requires count <= |workers|
    ensures ssh in Hosts(workers, count) <==> Members(workers, count, ssh) != []
  {
    if count > 0 { HostsAreExact(workers, count - 1, ssh); }
  }

  ghost predicate InOrder(members: seq<Indexed>, count: nat) {
    && (forall p :: 0 <= p < |members| ==> members[p].proverId < count)
    && (forall p, q :: 0 <= p < q < |members| ==> members[p].proverId < members[q].proverId)
  }

  /** The members of a host are its workers, each under its own position, in
      configuration order. */
  lemma {:induction false} MembersAreExact(workers: seq<Worker>, count: nat, ssh: string)
    requires count <= |workers|
    ensures forall member :: member in Members(workers, count, ssh) <==>
              member.proverId < count && workers[member.proverId] == member.worker && member.worker.node.ssh == ssh
    ensures InOrder(Members(workers, count, ssh), count)
  {
    if count > 0 { MembersAreExact(workers, count - 1, ssh); }
  }

  ghost predicate IsAt(groups: seq<Group>, proverId: nat, g: nat, p: nat) {
    g < |groups| && p < |groups[g].workers| && groups[g].workers[p].proverId == proverId
  }

  /** Every position of the configuration is the prover id of exactly one worker
      of exactly one group. */
  lemma EachProverOnce(workers: seq<Worker>, proverId: nat)
    requires proverId < |workers|
    ensures var groups := Groups(workers, |workers|);
            && (exists g: nat, p: nat :: IsAt(groups, proverId, g, p) && groups[g].ssh == workers[proverId].node.ssh
                               && groups[g].workers[p].worker == workers[proverId])
            && forall g: nat, p: nat, h: nat, q: nat ::
                 IsAt(groups, proverId, g, p) && IsAt(groups, proverId, h, q) ==> g == h && p == q
  {
    var n := |workers|;
    var groups := Groups(workers, n);
    var ssh := workers[proverId].node.ssh;
    MembersAreExact(workers, n, ssh);
    HostsAreExact(workers, n, ssh);
    HostsAreDistinct(workers, n);
    hide Hosts, Members;
    var member := Indexed(workers[proverId], proverId);
    assert member in Members(workers, n, ssh);
    var g :| 0 <= g < |Hosts(workers, n)| && Hosts(workers, n)[g] == ssh;
    var p :| 0 <= p < |Members(workers, n, ssh)| && Members(workers, n, ssh)[p] == member;
    assert IsAt(groups, proverId, g, p);
    forall h: nat, q: nat | IsAt(groups, proverId, h, q) ensures h == g && q == p {
      MembersAreExact(workers, n, groups[h].ssh);
      assert groups[h].workers[q] in Members(workers, n, groups[h].ssh);
    }
  }

  // ---------- The split of a host ----------

  datatype Cpus = Cpus(first: int, last: int)

  /** The CPUs of one position among the workers of a host, both ends included. */
  function CpusetCpus(position: nat, hostWorkers: nat, hostCpus: nat): Cpus
    requires position < hostWorkers
  {
    var share := hostCpus / hostWorkers;
    Cpus(position * share, if position == hostWorkers - 1 then hostCpus - 1 else (position + 1) * share - 1)
  }

  lemma Quotient(position: nat, share: nat, cpu: nat)
    requires share > 0
    ensures position * share <= cpu <==> position <= cpu / share
  {
    if position <= cpu / share {
      assert position * share <= (cpu / share) * share <= cpu;
    } else {
      assert position * share >= (cpu / share + 1) * share > cpu;
    }
  }

  /** The only position whose range holds the CPU. */
  function Owner(hostWorkers: nat, hostCpus: nat, cpu: nat): nat
    requires 0 < hostWorkers <= hostCpus
  {
    var quotient := cpu / (hostCpus / hostWorkers);
    if quotient < hostWorkers then quotient else hostWorkers - 1
  }

  /** Every CPU of the host is in the range of exactly one position, and no range
      is empty or leaves the host. */
  lemma CpusArePartitioned(hostWorkers: nat, hostCpus: nat, cpu: nat, position: nat)
    requires 0 < hostWorkers <= hostCpus && position < hostWorkers && cpu < hostCpus
    ensures var cpus := CpusetCpus(position, hostWorkers, hostCpus);
            && 0 <= cpus.first <= cpus.last < hostCpus
            && (cpus.first <= cpu <= cpus.last <==> position == Owner(hostWorkers, hostCpus, cpu))
  {
    var share := hostCpus / hostWorkers;
    Quotient(1, hostWorkers, hostCpus);
    Quotient(position, share, cpu);
    Quotient(position + 1, share, cpu);
    Shares(position, hostWorkers, share);
    Quotient(share, hostWorkers, hostCpus);
  }

  /** Every worker but the last has the same share, the whole part of an even split.
      The ranges follow one another from CPU 0, and the last ends at the last CPU. */
  lemma CpusAreEven(hostWorkers: nat, hostCpus: nat, position: nat)
    requires 0 < hostWorkers <= hostCpus && position < hostWorkers
    ensures var cpus := CpusetCpus(position, hostWorkers, hostCpus);
            && (position == 0 ==> cpus.first == 0)
            && (position + 1 < hostWorkers ==>
                  && cpus.last - cpus.first + 1 == hostCpus / hostWorkers
                  && CpusetCpus(position + 1, hostWorkers, hostCpus).first == cpus.last + 1)
            && (position + 1 == hostWorkers ==> cpus.last == hostCpus - 1)
  {
    Shares(position, hostWorkers, hostCpus / hostWorkers);
  }

  lemma Shares(position: nat, hostWorkers: nat, share: nat)
    requires position < hostWorkers
    ensures (position + 1) * share == position * share + share && (position + 1) * share <= share * hostWorkers
  {
    var after := hostWorkers - position - 1;
    assert (position + 1 + after) * share == (position + 1) * share + after * share;
    assert after * share >= 0;
  }

  // ---------- Starting the workers of a host ----------

  datatype Started = Started(container: string, proverId: nat, port: nat, cpus: Cpus)

  function StartedAt(group: Group, position: nat, hostCpus: nat): Started
    requires position < |group.workers| && HasOneGpu(group.workers[position].worker)
  {
    var gpu := group.workers[position].worker.deviceIds[0];
    Started(WorkerContainer(gpu), group.workers[position].proverId, WorkerPort(gpu),
      CpusetCpus(position, |group.workers|, hostCpus))
  }

  ghost predicate AllHaveOneGpu(group: Group) {
    forall p :: 0 <= p < |group.workers| ==> HasOneGpu(group.workers[p].worker)
  }

  /** The containers of the workers that do not run yet, and no other, in the
      order of the workers. */
  ghost predicate AreStarted(group: Group, count: nat, hostCpus: nat, running: set<string>, started: seq<Started>)
    requires count <= |group.workers| && AllHaveOneGpu(group)
  {
    && (forall s :: s in started <==>
          exists p :: 0 <= p < count && s == StartedAt(group, p, hostCpus) && s.container !in running)
    && (forall x, y :: 0 <= x < y < |started| ==> Precedes(group, count, hostCpus, started[x], started[y]))
  }

  ghost predicate Precedes(group: Group, count: nat, hostCpus: nat, a: Started, b: Started)
    requires count <= |group.workers| && AllHaveOneGpu(group)
  {
    exists p, q :: 0 <= p < q < count && a == StartedAt(group, p, hostCpus) && b == StartedAt(group, q, hostCpus)
  }

  /** The fold of the start loop over the leading count workers. */
  function ToStart(group: Group, count: nat, hostCpus: nat, running: set<string>): seq<Started>
    requires count <= |group.workers| && AllHaveOneGpu(group)
  {
    if count == 0 then []
    else
      var last := StartedAt(group, count - 1, hostCpus);
      ToStart(group, count - 1, hostCpus, running) + (if last.container in running then [] else [last])
  }

  lemma {:induction false} ToStartIsExact(group: Group, count: nat, hostCpus: nat, running: set<string>, s: Started)
    requires count <= |group.workers| && AllHaveOneGpu(group)
    ensures s in ToStart(group, count, hostCpus, running) <==>
              exists p :: 0 <= p < count && s == StartedAt(group, p, hostCpus) && s.container !in running
  {
    hide StartedAt;
    if count > 0 { ToStartIsExact(group, count - 1, hostCpus, running, s); }
  }

  lemma {:induction false} ToStartIsInOrder(group: Group, count: nat, hostCpus: nat, running: set<string>, x: nat,
                                            y: nat)
    requires count <= |group.workers| && AllHaveOneGpu(group) && x < y < |ToStart(group, count, hostCpus, running)|
    ensures var started := ToStart(group, count, hostCpus, running);
            Precedes(group, count, hostCpus, started[x], started[y])
  {
    hide StartedAt;
    var last := count - 1;
    var earlier := ToStart(group, last, hostCpus, running);
    if y < |earlier| {
      ToStartIsInOrder(group, last, hostCpus, running, x, y);
    } else {
      assert earlier[x] in earlier;
      ToStartIsExact(group, last, hostCpus, running, earlier[x]);
      var p :| 0 <= p < last && earlier[x] == StartedAt(group, p, hostCpus) && earlier[x].container !in running;
      assert Precedes(group, count, hostCpus, earlier[x], StartedAt(group, last, hostCpus));
    }
  }

  lemma ToStartAreStarted(group: Group, hostCpus: nat, running: set<string>)
    requires AllHaveOneGpu(group)
    ensures AreStarted(group, |group.workers|, hostCpus, running, ToStart(group, |group.workers|, hostCpus, running))
  {
    var count := |group.workers|;
    var started := ToStart(group, count, hostCpus, running);
    hide ToStart, StartedAt, Precedes;
    forall s
      ensures s in started <==>
              exists p :: 0 <= p < count && s == StartedAt(group, p, hostCpus) && s.container !in running
    {
      ToStartIsExact(group, count, hostCpus, running, s);
    }
    forall x, y | 0 <= x < y < |started| ensures Precedes(group, count, hostCpus, started[x], started[y]) {
      ToStartIsInOrder(group, count, hostCpus, running, x, y);
    }
  }

  /** A host with fewer CPUs than workers is refused. On any other host exactly
      the workers whose containers do not run yet are started. */
  method StartWorkers(group: Group, hostCpus: nat, running: set<string>) returns (started: Option<seq<Started>>)
    requires AllHaveOneGpu(group)
    ensures started == if hostCpus < |group.workers| then None
            else Some(ToStart(group, |group.workers|, hostCpus, running))
    ensures started.Some? ==> AreStarted(group, |group.workers|, hostCpus, running, started.value)
  {
    hide AreStarted;
    if hostCpus < |group.workers| { return None; }
    var starting: seq<Started> := [];
    for position := 0 to |group.workers|
      invariant starting == ToStart(group, position, hostCpus, running)
    {
      var gpu := group.workers[position].worker.deviceIds[0];
      var name := WorkerContainer(gpu);
      if name !in running {
        var cpus := CpusetCpus(position, |group.workers|, hostCpus);
        starting := starting + [Started(name, group.workers[position].proverId, WorkerPort(gpu), cpus)];
      }
    }
    ToStartAreStarted(group, hostCpus, running);
    return Some(starting);
  }

  /** Two positions of one host of a valid configuration never share a container
      name, a port, a prover id or a CPU. */
  lemma PositionsAreApart(config: Config, g: nat, hostCpus: nat, p: nat, q: nat, cpu: nat)
    requires IsValid(config) && g < |Groups(config.workers, |config.workers|)|
    requires var group := Groups(config.workers, |config.workers|)[g];
             p < |group.workers| && q < |group.workers| && p != q && |group.workers| <= hostCpus && cpu < hostCpus
    ensures var group := Groups(config.workers, |config.workers|)[g];
            && HasOneGpu(group.workers[p].worker) && HasOneGpu(group.workers[q].worker)
            && var a, b := StartedAt(group, p, hostCpus), StartedAt(group, q, hostCpus);
            && a.container != b.container && a.port != b.port && a.proverId != b.proverId
            && !(a.cpus.first <= cpu <= a.cpus.last && b.cpus.first <= cpu <= b.cpus.last)
  {
    var workers := config.workers;
    var group := Groups(workers, |workers|)[g];
    MembersAreExact(workers, |workers|, group.ssh);
    hide Members, Hosts, Decimal;
    var a, b := group.workers[p], group.workers[q];
    assert a in Members(workers, |workers|, group.ssh) && b in Members(workers, |workers|, group.ssh);
    GpusDiffer(config, a.proverId, b.proverId);
    var m, n := a.worker.deviceIds[0], b.worker.deviceIds[0];
    if WorkerContainer(m) == WorkerContainer(n) {
      assert WorkerContainer(m)[|WORKER_PREFIX|..] == Decimal(m) && WorkerContainer(n)[|WORKER_PREFIX|..] == Decimal(n);
      DecimalIsInjective(m, n);
    }
    CpusArePartitioned(|group.workers|, hostCpus, cpu, p);
    CpusArePartitioned(|group.workers|, hostCpus, cpu, q);
  }

  /** Every group of a valid configuration may be started. */
  lemma GroupsMayStart(config: Config, g: nat)
    requires IsValid(config) && g < |Groups(config.workers, |config.workers|)|
    ensures AllHaveOneGpu(Groups(config.workers, |config.workers|)[g])
  {
    var workers := config.workers;
    var group := Groups(workers, |workers|)[g];
    MembersAreExact(workers, |workers|, group.ssh);
    hide Members, Hosts;
    forall p | 0 <= p < |group.workers| ensures HasOneGpu(group.workers[p].worker) {
      assert group.workers[p] in Members(workers, |workers|, group.ssh);
      assert WorkerFault(config, group.workers[p].proverId).None?;
    }
  }

  ghost predicate Takes(started: Started, cpu: nat) {
    started.cpus.first <= cpu <= started.cpus.last
  }

  /** Any two containers that one host of a valid configuration starts differ in
      name, port and prover id, and share no CPU. None of them runs already. */
  lemma HostIsShared(config: Config, g: nat, hostCpus: nat, running: set<string>, started: seq<Started>, x: nat,
                     y: nat, cpu: nat)
    requires IsValid(config) && g < |Groups(config.workers, |config.workers|)|
    requires var group := Groups(config.workers, |config.workers|)[g];
             && |group.workers| <= hostCpus && AllHaveOneGpu(group)
             && AreStarted(group, |group.workers|, hostCpus, running, started)
    requires x < y < |started| && cpu < hostCpus
    ensures var a, b := started[x], started[y];
            && a.container != b.container && a.port != b.port && a.proverId != b.proverId
               && !(Takes(a, cpu) && Takes(b, cpu))
            && a.container !in running && b.container !in running
  {
    hide StartedAt, IsValid, Members, Hosts;
    var group := Groups(config.workers, |config.workers|)[g];
    var a, b := started[x], started[y];
    assert a in started && b in started;
    assert Precedes(group, |group.workers|, hostCpus, a, b);
    var p, q :| 0 <= p < q < |group.workers| && a == StartedAt(group, p, hostCpus)
      && b == StartedAt(group, q, hostCpus);
    PositionsAreApart(config, g, hostCpus, p, q, cpu);
  }

  /** A started container is that of the worker of its prover id, which is on the
      host, and has the name and the port of that worker's GPU. */
  lemma StartedIsItsWorker(config: Config, g: nat, hostCpus: nat, running: set<string>, started: seq<Started>,
                           s: Started)
    requires IsValid(config) && g < |Groups(config.workers, |config.workers|)|
    requires var group := Groups(config.workers, |config.workers|)[g];
             AllHaveOneGpu(group) && AreStarted(group, |group.workers|, hostCpus, running, started)
    requires s in started
    ensures s.proverId < |config.workers|
    ensures var worker := config.workers[s.proverId];
            && worker.node.ssh == Groups(config.workers, |config.workers|)[g].ssh
            && HasOneGpu(worker)
            && s.container == "openvm-worker-" + Decimal(worker.deviceIds[0]) && s.port == 8001 + worker.deviceIds[0]
            && s.container !in running
  {
    var workers := config.workers;
    var group := Groups(workers, |workers|)[g];
    MembersAreExact(workers, |workers|, group.ssh);
    hide Members, Hosts, Decimal, CpusetCpus, IsValid;
    var p :| 0 <= p < |group.workers| && s == StartedAt(group, p, hostCpus) && s.container !in running;
    assert group.workers[p] in Members(workers, |workers|, group.ssh);
  }

  /** Two hosts never start one prover id. */
  lemma ProversStartOnce(config: Config, g: nat, h: nat, hostCpus: nat, otherCpus: nat, running: set<string>,
                         others: set<string>, started: seq<Started>, elsewhere: seq<Started>, a: Started, b: Started)
    requires IsValid(config)
    requires g < |Groups(config.workers, |config.workers|)| && h < |Groups(config.workers, |config.workers|)|
    requires var group := Groups(config.workers, |config.workers|)[g];
             AllHaveOneGpu(group) && AreStarted(group, |group.workers|, hostCpus, running, started)
    requires var group := Groups(config.workers, |config.workers|)[h];
             AllHaveOneGpu(group) && AreStarted(group, |group.workers|, otherCpus, others, elsewhere)
    requires g != h && a in started && b in elsewhere
    ensures a.proverId != b.proverId
  {
    hide AreStarted, IsValid, Members, Hosts, AllHaveOneGpu;
    StartedIsItsWorker(config, g, hostCpus, running, started, a);
    StartedIsItsWorker(config, h, otherCpus, others, elsewhere, b);
    HostsAreDistinct(config.workers, |config.workers|);
  }

  /** The containers that a host starts when none runs yet take every CPU. */
  lemma HostIsFilled(group: Group, hostCpus: nat, started: seq<Started>, cpu: nat)
    requires 0 < |group.workers| <= hostCpus && cpu < hostCpus && AllHaveOneGpu(group)
    requires AreStarted(group, |group.workers|, hostCpus, {}, started)
    ensures exists x :: 0 <= x < |started| && Takes(started[x], cpu)
  {
    var p := Owner(|group.workers|, hostCpus, cpu);
    CpusArePartitioned(|group.workers|, hostCpus, cpu, p);
    var owner := StartedAt(group, p, hostCpus);
    assert owner in started;
  }

  /** Two workers of a valid configuration never share a GPU of a host or an
      advertised address. */
  lemma GpusDiffer(config: Config, i: nat, j: nat)
    requires IsValid(config) && i < |config.workers| && j < |config.workers| && i != j
    ensures var a, b := config.workers[i], config.workers[j];
            && HasOneGpu(a) && HasOneGpu(b)
            && (a.node.ssh == b.node.ssh ==> a.deviceIds[0] != b.deviceIds[0])
            && WorkerUrl(a) != WorkerUrl(b)
  {
    hide Decimal;
    var workers := config.workers;
    assert WorkerFault(config, i).None? && WorkerFault(config, j).None?;
    var a, b := workers[i], workers[j];
    KeysAreInjective(a, b);
    assert a.deviceIds == [a.deviceIds[0]] && b.deviceIds == [b.deviceIds[0]];
    if i < j {
      assert !SharesGpu(workers, i, j) && !SharesUrl(workers, i, j);
    } else {
      assert !SharesGpu(workers, j, i) && !SharesUrl(workers, j, i);
    }
  }
}
