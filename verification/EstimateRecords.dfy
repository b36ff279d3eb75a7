/** The estimation artifact and the three operations that fill it: recording one
    outcome, copying the records of earlier estimates, and merging a profile
    into the estimate it mirrors. */
module EstimateRecords {
  import opened Wrappers

  type Name = string
  type Id = string

  /** The image reference and the ELF digest that a record belongs to. */
  datatype Guest = Guest(image: string, elf: string)

  /** A header holds the guest, the suite, the instance, and the start time. */
  datatype Header = Header(guest: Guest, suite: string, instance: string, timestamp: int)

  /** A cost carries the guest it was measured under and the execution that gave
      it. The JSON artifact holds neither, so both only serve the statements. */
  datatype Cost = Cost(guest: Guest, execution: nat)

  datatype Fault = Fault(guest: Guest, message: string)

  datatype Records = Records(tests: map<Name, Cost>, failures: map<Name, Fault>) {

    ghost function Names(): set<Name> {
      tests.Keys + failures.Keys
    }

    ghost predicate Disjoint() {
      tests.Keys !! failures.Keys
    }

    ghost predicate MeasuredUnder(guest: Guest) {
      && (forall name :: name in tests ==> tests[name].guest == guest)
      && (forall name :: name in failures ==> failures[name].guest == guest)
    }

    /** Every record of this is a record of other. */
    ghost predicate Within(other: Records) {
      && (forall name :: name in tests ==> name in other.tests && other.tests[name] == tests[name])
      && (forall name :: name in failures ==> name in other.failures && other.failures[name] == failures[name])
    }
  }

  const NO_RECORDS := Records(map[], map[])

  datatype Artifact = Artifact(header: Header, records: Records)

  /** What one execution of the guest gave. */
  datatype Measured = Priced(cost: Cost) | Faulted(fault: Fault)

  datatype Outcome = Outcome(name: Name, measured: Measured)

  /** The estimate that a directory of the results holds. */
  datatype Entry = Entry(id: Id, artifact: Artifact)

  predicate SameEstimation(a: Header, b: Header) {
    a.guest == b.guest && a.suite == b.suite
  }

  function Recorded(records: Records, done: Outcome): Records {
    match done.measured
    case Priced(cost) => records.(tests := records.tests[done.name := cost])
    case Faulted(fault) => records.(failures := records.failures[done.name := fault])
  }

  /** The cost of an outcome is under its name in the costs, or its failure in the
      failures. */
  predicate HoldsOutcome(records: Records, done: Outcome) {
    match done.measured
    case Priced(cost) => done.name in records.tests && records.tests[done.name] == cost
    case Faulted(fault) => done.name in records.failures && records.failures[done.name] == fault
  }

  /** Recording a pending test files its cost or its failure under its name and
      changes no other record. */
  lemma RecordGrows(records: Records, done: Outcome, guest: Guest)
    requires records.Disjoint() && records.MeasuredUnder(guest) && done.name !in records.Names()
    requires match done.measured case Priced(cost) => cost.guest == guest case Faulted(fault) => fault.guest == guest
    ensures var after := Recorded(records, done);
            && records.Within(after) && after.Disjoint() && after.MeasuredUnder(guest)
            && after.Names() == records.Names() + {done.name}
            && HoldsOutcome(after, done)
            && match done.measured
               case Priced(cost) =>
                 && done.name in after.tests && after.tests[done.name] == cost && after.failures == records.failures
                 && after.tests.Keys == records.tests.Keys + {done.name}
               case Faulted(fault) =>
                 && done.name in after.failures && after.failures[done.name] == fault && after.tests == records.tests
                 && after.failures.Keys == records.failures.Keys + {done.name}
  {
  }

  ghost function Pending(names: seq<Name>, records: Records): set<Name> {
    set name | name in names && name !in records.Names()
  }

  // ---------- Merging a profile into its mirror ----------

  /** The records of the mirror that result does not replace, and all of result. */
  ghost function Merged(mirror: Records, result: Records): Records {
    Records((mirror.tests - result.failures.Keys) + result.tests,
            (mirror.failures - result.tests.Keys) + result.failures)
  }

  /** A merge of two disjoint artifacts stays disjoint, keeps every record of
      result and every other record of the mirror, and holds no other name. */
  lemma MergeKeepsEveryName(mirror: Records, result: Records)
    requires mirror.Disjoint() && result.Disjoint()
    ensures Merged(mirror, result).Disjoint()
    ensures Merged(mirror, result).Names() == mirror.Names() + result.Names()
    ensures result.Within(Merged(mirror, result))
    ensures forall name :: name in mirror.tests && name !in result.Names() ==>
              name in Merged(mirror, result).tests && Merged(mirror, result).tests[name] == mirror.tests[name]
    ensures forall name :: name in mirror.failures && name !in result.Names() ==>
              name in Merged(mirror, result).failures && Merged(mirror, result).failures[name] == mirror.failures[name]
  {
  }

  lemma MergeKeepsGuest(mirror: Records, result: Records, guest: Guest)
    requires mirror.MeasuredUnder(guest) && result.MeasuredUnder(guest)
    ensures Merged(mirror, result).MeasuredUnder(guest)
  {
  }

  /** A profile that was interrupted after it saved earlier, and resumed from
      both saved artifacts, leaves the mirror an uninterrupted one leaves. */
  lemma MergeForgetsInterruption(mirror: Records, earlier: Records, result: Records)
    requires mirror.Disjoint() && result.Disjoint()
    requires earlier.Within(result)
    ensures Merged(Merged(mirror, earlier), result) == Merged(mirror, result)
  {
    MapMergeForgets(mirror.tests, earlier.tests, earlier.failures.Keys, result.tests, result.failures.Keys);
    MapMergeForgets(mirror.failures, earlier.failures, earlier.tests.Keys, result.failures, result.tests.Keys);
  }

  /** One of the two maps of a merge, where the other kind of record takes its
      names out first. */
  lemma MapMergeForgets<T>(mirror: map<Name, T>, earlier: map<Name, T>, earlierOut: set<Name>, result: map<Name, T>,
                           out: set<Name>)
    requires earlierOut <= out
    requires forall name :: name in earlier ==> name in result && result[name] == earlier[name]
    ensures (((mirror - earlierOut) + earlier) - out) + result == (mirror - out) + result
  {
  }

  // ---------- Reusing the records of earlier estimates ----------

  predicate Donates(entry: Entry, id: Id, header: Header) {
    entry.id != id && SameEstimation(entry.artifact.header, header)
  }

  predicate Holds(entry: Entry, name: Name) {
    name in entry.artifact.records.tests || name in entry.artifact.records.failures
  }

  /** The first of the leading count entries that may donate and holds name. */
  ghost function Donor(entries: seq<Entry>, count: nat, id: Id, header: Header, name: Name): (donor: Option<nat>)
    requires count <= |entries|
  {
    if count == 0 then None
    else
      var earlier := Donor(entries, count - 1, id, header, name);
      if earlier.Some? then earlier
      else if Donates(entries[count - 1], id, header) && Holds(entries[count - 1], name) then Some(count - 1)
      else None
  }

  lemma {:induction false} DonorIsFirst(entries: seq<Entry>, count: nat, id: Id, header: Header, name: Name)
    requires count <= |entries|
    ensures match Donor(entries, count, id, header, name)
            case Some(k) =>
              && k < count && Donates(entries[k], id, header) && Holds(entries[k], name)
              && entries[k].id != id && entries[k].artifact.header.guest.image == header.guest.image
              && entries[k].artifact.header.guest.elf == header.guest.elf
              && entries[k].artifact.header.suite == header.suite
              && forall j :: 0 <= j < k ==> !(Donates(entries[j], id, header) && Holds(entries[j], name))
            case None => forall j :: 0 <= j < count ==> !(Donates(entries[j], id, header) && Holds(entries[j], name))
  {
    if count > 0 {
      DonorIsFirst(entries, count - 1, id, header, name);
    }
  }

  /** A pending name has the record of its donor, a cost before a failure, and
      every other name is as it was. */
  ghost predicate IsReuse(entries: seq<Entry>, count: nat, id: Id, header: Header, names: seq<Name>, before: Records,
                          after: Records)
    requires count <= |entries|
  {
    forall name :: ReuseOf(entries, count, id, header, names, before, after, name)
  }

  ghost predicate ReuseOf(entries: seq<Entry>, count: nat, id: Id, header: Header, names: seq<Name>, before: Records,
                          after: Records, name: Name)
    requires count <= |entries|
  {
    if name in Pending(names, before)
    then ReusedFrom(entries, Donor(entries, count, id, header, name), name, after)
    else SameOf(before, after, name)
  }

  ghost predicate SameOf(before: Records, after: Records, name: Name) {
    && (name in after.tests <==> name in before.tests)
    && (name in after.failures <==> name in before.failures)
    && (name in before.tests ==> after.tests[name] == before.tests[name])
    && (name in before.failures ==> after.failures[name] == before.failures[name])
  }

  /** The record of name comes from its donor, and there is none without one. */
  ghost predicate ReusedFrom(entries: seq<Entry>, donor: Option<nat>, name: Name, after: Records) {
    match donor
    case None => name !in after.Names()
    case Some(k) =>
      && k < |entries|
      && var held := entries[k].artifact.records;
        if name in held.tests then
          name in after.tests && after.tests[name] == held.tests[name] && name !in after.failures
        else
          name in held.failures && name in after.failures && after.failures[name] == held.failures[name]
            && name !in after.tests
  }

  /** The id of the donor of every copied cost. */
  ghost predicate AreSources(entries: seq<Entry>, count: nat, id: Id, header: Header, names: seq<Name>,
                             before: Records, sources: map<Name, Id>)
    requires count <= |entries|
  {
    forall name :: SourceOf(entries, count, id, header, names, before, sources, name)
  }

  ghost predicate SourceOf(entries: seq<Entry>, count: nat, id: Id, header: Header, names: seq<Name>,
                           before: Records, sources: map<Name, Id>, name: Name)
    requires count <= |entries|
  {
    var donor := Donor(entries, count, id, header, name);
    if name in Pending(names, before) && FromCost(entries, donor, name)
    then name in sources && sources[name] == entries[donor.value].id
    else name !in sources
  }

  ghost predicate FromCost(entries: seq<Entry>, donor: Option<nat>, name: Name) {
    donor.Some? && donor.value < |entries| && name in entries[donor.value].artifact.records.tests
  }

  /** The reuse is one function of the listing, whatever order the pending
      names were visited in. */
  lemma ReuseIsUnique(entries: seq<Entry>, id: Id, header: Header, names: seq<Name>, before: Records, a: Records,
                      b: Records)
    requires IsReuse(entries, |entries|, id, header, names, before, a)
    requires IsReuse(entries, |entries|, id, header, names, before, b)
    ensures a == b
  {
    forall name
      ensures name in a.tests <==> name in b.tests
      ensures name in a.failures <==> name in b.failures
      ensures name in a.tests ==> a.tests[name] == b.tests[name]
      ensures name in a.failures ==> a.failures[name] == b.failures[name]
    {
      assert ReuseOf(entries, |entries|, id, header, names, before, a, name);
      assert ReuseOf(entries, |entries|, id, header, names, before, b, name);
    }
    assert a.tests == b.tests && a.failures == b.failures;
  }

  /** A reuse keeps provenance, disjointness, and what was recorded. */
  lemma ReuseKeepsRecords(entries: seq<Entry>, id: Id, header: Header, names: seq<Name>, before: Records,
                          after: Records)
    requires IsReuse(entries, |entries|, id, header, names, before, after)
    requires before.Disjoint() && before.MeasuredUnder(header.guest)
    requires forall entry :: entry in entries ==> entry.artifact.records.MeasuredUnder(entry.artifact.header.guest)
    ensures before.Within(after) && after.Disjoint() && after.MeasuredUnder(header.guest)
  {
    forall name
      ensures !(name in after.tests && name in after.failures)
      ensures name in after.tests ==> after.tests[name].guest == header.guest
      ensures name in after.failures ==> after.failures[name].guest == header.guest
      ensures name in before.tests ==> name in after.tests && after.tests[name] == before.tests[name]
      ensures name in before.failures ==> name in after.failures && after.failures[name] == before.failures[name]
    {
      assert ReuseOf(entries, |entries|, id, header, names, before, after, name);
      DonorIsFirst(entries, |entries|, id, header, name);
      var donor := Donor(entries, |entries|, id, header, name);
      if name in Pending(names, before) && donor.Some? {
        assert entries[donor.value] in entries;
      }
    }
  }

  // ---------- The artifact as the commands update it ----------

  /** The artifact a command holds in memory. */
  class LiveArtifact {
    const header: Header
    var tests: map<Name, Cost>
    var failures: map<Name, Fault>

    ghost function Value(): Records
      reads this
    {
      Records(tests, failures)
    }

    constructor (header: Header, records: Records)
      ensures this.header == header && Value() == records
    {
      this.header := header;
      tests, failures := records.tests, records.failures;
    }

    method Record(done: Outcome)
      modifies this
      ensures Value() == Recorded(old(Value()), done)
      ensures match done.measured
              case Priced(cost) => tests == old(tests)[done.name := cost] && failures == old(failures)
              case Faulted(fault) => failures == old(failures)[done.name := fault] && tests == old(tests)
    {
      match done.measured
      case Faulted(fault) =>
        failures := failures[done.name := fault];
      case Priced(cost) =>
        tests := tests[done.name := cost];
    }

    /** The pending tests, gathered name by name. */
    method PendingTests(names: seq<Name>) returns (pending: set<Name>)
      ensures pending == Pending(names, Value())
      ensures forall name :: name in pending <==> name in names && name !in tests && name !in failures
    {
      pending := {};
      for k := 0 to |names|
        invariant pending == Pending(names[..k], Value())
      {
        assert names[..k + 1] == names[..k] + [names[k]];
        if names[k] !in tests && names[k] !in failures {
          pending := pending + {names[k]};
        }
      }
      assert names[..|names|] == names;
    }

    /** Scans the estimates in listing order and copies into the artifact every
        pending record that an interchangeable estimate holds. */
    method ReuseEstimates(entries: seq<Entry>, id: Id, names: seq<Name>) returns (reused: nat, sources: map<Name, Id>)
      modifies this
      ensures IsReuse(entries, |entries|, id, header, names, old(Value()), Value())
      ensures AreSources(entries, |entries|, id, header, names, old(Value()), sources)
      ensures reused == |Pending(names, old(Value()))| - |Pending(names, Value())|
    {
      ghost var before := Value();
      reused, sources := 0, map[];
      for k := 0 to |entries|
        invariant IsReuse(entries, k, id, header, names, before, Value())
        invariant AreSources(entries, k, id, header, names, before, sources)
        invariant reused + |Pending(names, Value())| == |Pending(names, before)|
      {
        if entries[k].id == id || !SameEstimation(entries[k].artifact.header, header) {
          SkipKeepsReuse(entries, k, id, header, names, before, Value(), sources);
        } else {
          ghost var start, startSources := Value(), sources;
          var copied;
          copied, sources := CopyPending(entries[k], names, sources);
          reused := reused + copied;
          CopyExtendsReuse(entries, k, id, header, names, before, start, Value(), startSources, sources);
        }
      }
    }

    /** Copies the pending records of one estimate, in whatever order the pending
        names come. */
    method CopyPending(entry: Entry, names: seq<Name>, known: map<Name, Id>)
      returns (copied: nat, sources: map<Name, Id>)
      modifies this
      ensures IsCopy(entry.artifact.records, Pending(names, old(Value())), old(Value()), Value())
      ensures SourcesCopied(entry, Pending(names, old(Value())), known, sources)
      ensures copied + |Pending(names, Value())| == |Pending(names, old(Value()))|
    {
      ghost var before := Value();
      copied, sources := 0, known;
      var pending := PendingTests(names);
      var todo := pending;
      while todo != {}
        invariant todo <= pending
        invariant IsCopy(entry.artifact.records, pending - todo, before, Value())
        invariant SourcesCopied(entry, pending - todo, known, sources)
        invariant todo <= Pending(names, Value())
        invariant copied + |Pending(names, Value())| == |pending|
        decreases |todo|
      {
        var name :| name in todo;
        ghost var start, startSources := Value(), sources;
        var taken;
        taken, sources := CopyOne(entry, names, name, sources);
        copied := if taken then copied + 1 else copied;
        CopyOneMore(entry, pending, todo, name, before, start, Value(), known, startSources, sources);
        todo := todo - {name};
      }
      assert pending - {} == pending;
    }

    /** Copies the record of one pending test, a cost before a failure. */
    method CopyOne(entry: Entry, names: seq<Name>, name: Name, known: map<Name, Id>)
      returns (copied: bool, sources: map<Name, Id>)
      requires name in Pending(names, Value())
      modifies this
      ensures IsCopy(entry.artifact.records, {name}, old(Value()), Value())
      ensures SourcesCopied(entry, {name}, known, sources)
      ensures copied <==> Holds(entry, name)
      ensures Pending(names, Value()) == if copied then Pending(names, old(Value())) - {name}
              else Pending(names, old(Value()))
    {
      copied, sources := true, known;
      if name in entry.artifact.records.tests {
        tests := tests[name := entry.artifact.records.tests[name]];
        sources := sources[name := entry.id];
      } else if name in entry.artifact.records.failures {
        failures := failures[name := entry.artifact.records.failures[name]];
      } else {
        copied := false;
      }
    }

    /** The artifact that a profile writes as the estimate of the same id. */
    method MergedWith(mirror: Records) returns (merged: Records)
      ensures merged == Merged(mirror, Value())
    {
      var mergedFailures := DeleteAll(mirror.failures, tests.Keys);
      var mergedTests := DeleteAll(mirror.tests, failures.Keys);
      merged := Records(mergedTests + tests, mergedFailures + failures);
    }
  }

  /** Deletes the names one by one, in whatever order they come. */
  method DeleteAll<T>(held: map<Name, T>, names: set<Name>) returns (left: map<Name, T>)
    ensures left == held - names
  {
    left := held;
    var todo := names;
    while todo != {}
      invariant todo <= names
      invariant left == held - (names - todo)
      decreases |todo|
    {
      var name :| name in todo;
      left := left - {name};
      todo := todo - {name};
    }
    assert names - {} == names;
  }

  /** The visited names that held keeps are copied from it, and no other name
      changes. */
  ghost predicate IsCopy(held: Records, visited: set<Name>, before: Records, after: Records) {
    forall name :: CopyOf(held, visited, before, after, name)
  }

  ghost predicate CopyOf(held: Records, visited: set<Name>, before: Records, after: Records, name: Name) {
    if name in visited && name in held.tests then
      name in after.tests && after.tests[name] == held.tests[name] && SameFailure(before, after, name)
    else if name in visited && name in held.failures then
      name in after.failures && after.failures[name] == held.failures[name]
        && (name in after.tests <==> name in before.tests)
    else
      SameOf(before, after, name)
  }

  ghost predicate SameFailure(before: Records, after: Records, name: Name) {
    name in after.failures <==> name in before.failures
  }

  /** One step of the copy visits one more name. */
  lemma CopyOneMore(entry: Entry, pending: set<Name>, todo: set<Name>, name: Name, before: Records, start: Records,
                    after: Records, known: map<Name, Id>, startSources: map<Name, Id>, sources: map<Name, Id>)
    requires name in todo && todo <= pending
    requires IsCopy(entry.artifact.records, pending - todo, before, start)
    requires SourcesCopied(entry, pending - todo, known, startSources)
    requires IsCopy(entry.artifact.records, {name}, start, after)
    requires SourcesCopied(entry, {name}, startSources, sources)
    ensures IsCopy(entry.artifact.records, pending - (todo - {name}), before, after)
    ensures SourcesCopied(entry, pending - (todo - {name}), known, sources)
  {
    forall other
      ensures CopyOf(entry.artifact.records, pending - (todo - {name}), before, after, other)
      ensures SourceCopied(entry, pending - (todo - {name}), known, sources, other)
    {
      assert CopyOf(entry.artifact.records, pending - todo, before, start, other);
      assert CopyOf(entry.artifact.records, {name}, start, after, other);
      assert SourceCopied(entry, pending - todo, known, startSources, other);
      assert SourceCopied(entry, {name}, startSources, sources, other);
    }
  }

  ghost predicate SourcesCopied(entry: Entry, visited: set<Name>, before: map<Name, Id>, after: map<Name, Id>) {
    forall name :: SourceCopied(entry, visited, before, after, name)
  }

  ghost predicate SourceCopied(entry: Entry, visited: set<Name>, before: map<Name, Id>, after: map<Name, Id>,
                               name: Name) {
    if name in visited && name in entry.artifact.records.tests then name in after && after[name] == entry.id
    else (name in after <==> name in before) && (name in before ==> after[name] == before[name])
  }

  lemma SkipKeepsReuse(entries: seq<Entry>, k: nat, id: Id, header: Header, names: seq<Name>, before: Records,
                       after: Records, sources: map<Name, Id>)
    requires k < |entries| && !Donates(entries[k], id, header)
    requires IsReuse(entries, k, id, header, names, before, after)
    requires AreSources(entries, k, id, header, names, before, sources)
    ensures IsReuse(entries, k + 1, id, header, names, before, after)
    ensures AreSources(entries, k + 1, id, header, names, before, sources)
  {
    var next := k + 1;
    forall name
      ensures ReuseOf(entries, next, id, header, names, before, after, name)
      ensures SourceOf(entries, next, id, header, names, before, sources, name)
    {
      assert ReuseOf(entries, k, id, header, names, before, after, name);
      assert SourceOf(entries, k, id, header, names, before, sources, name);
    }
  }

  lemma CopyExtendsReuse(entries: seq<Entry>, k: nat, id: Id, header: Header, names: seq<Name>, before: Records,
                         start: Records, after: Records, startSources: map<Name, Id>, sources: map<Name, Id>)
    requires k < |entries| && Donates(entries[k], id, header)
    requires IsReuse(entries, k, id, header, names, before, start)
    requires AreSources(entries, k, id, header, names, before, startSources)
    requires IsCopy(entries[k].artifact.records, Pending(names, start), start, after)
    requires SourcesCopied(entries[k], Pending(names, start), startSources, sources)
    ensures IsReuse(entries, k + 1, id, header, names, before, after)
    ensures AreSources(entries, k + 1, id, header, names, before, sources)
  {
    var next := k + 1;
    forall name
      ensures ReuseOf(entries, next, id, header, names, before, after, name)
      ensures SourceOf(entries, next, id, header, names, before, sources, name)
    {
      CopyOfOneName(entries, k, id, header, names, before, start, after, startSources, sources, name);
    }
  }

  lemma CopyOfOneName(entries: seq<Entry>, k: nat, id: Id, header: Header, names: seq<Name>, before: Records,
                      start: Records, after: Records, startSources: map<Name, Id>, sources: map<Name, Id>, name: Name)
    requires k < |entries| && Donates(entries[k], id, header)
    requires ReuseOf(entries, k, id, header, names, before, start, name)
    requires SourceOf(entries, k, id, header, names, before, startSources, name)
    requires CopyOf(entries[k].artifact.records, Pending(names, start), start, after, name)
    requires SourceCopied(entries[k], Pending(names, start), startSources, sources, name)
    ensures ReuseOf(entries, k + 1, id, header, names, before, after, name)
    ensures SourceOf(entries, k + 1, id, header, names, before, sources, name)
  {
    DonorIsFirst(entries, k, id, header, name);
  }

  /** Every listing gives a reuse. */
  lemma {:induction false} ReuseExists(entries: seq<Entry>, k: nat, id: Id, header: Header, names: seq<Name>,
                                       before: Records)
    requires k <= |entries|
    ensures exists after, sources :: && IsReuse(entries, k, id, header, names, before, after)
                                     && AreSources(entries, k, id, header, names, before, sources)
  {
    hide Donor, Donates;
    if k == 0 {
      NothingReused(entries, id, header, names, before);
    } else {
      hide IsReuse, AreSources;
      var last := k - 1;
      ReuseExists(entries, last, id, header, names, before);
      var start, known :| && IsReuse(entries, last, id, header, names, before, start)
                          && AreSources(entries, last, id, header, names, before, known);
      if !Donates(entries[last], id, header) {
        SkipKeepsReuse(entries, last, id, header, names, before, start, known);
      } else {
        var after, sources := CopyExists(entries[last], Pending(names, start), start, known);
        CopyExtendsReuse(entries, last, id, header, names, before, start, after, known, sources);
      }
    }
  }

  lemma NothingReused(entries: seq<Entry>, id: Id, header: Header, names: seq<Name>, before: Records)
    ensures IsReuse(entries, 0, id, header, names, before, before)
    ensures AreSources(entries, 0, id, header, names, before, map[])
  {
  }

  lemma CopyExists(entry: Entry, visited: set<Name>, start: Records, known: map<Name, Id>)
    returns (after: Records, sources: map<Name, Id>)
    ensures IsCopy(entry.artifact.records, visited, start, after) && SourcesCopied(entry, visited, known, sources)
  {
    var held := entry.artifact.records;
    var tests := map name | name in visited && name in held.tests :: held.tests[name];
    var failures := map name | name in visited && name !in held.tests && name in held.failures :: held.failures[name];
    after := Records(start.tests + tests, start.failures + failures);
    sources := known + map name | name in visited && name in held.tests :: entry.id;
  }

  // ---------- Continuing an estimate ----------

  predicate Continues(entry: Entry, started: Header) {
    entry.artifact.header.instance == started.instance && SameEstimation(entry.artifact.header, started)
  }

  /** The latest estimate with the instance, image, ELF, and suite of the started
      one, and of equally late ones the first in id order. */
  method Continuation(entries: seq<Entry>, started: Header) returns (latest: Option<nat>)
    ensures latest.None? <==> forall j :: 0 <= j < |entries| ==> !Continues(entries[j], started)
    ensures latest.None? ==> forall j :: 0 <= j < |entries| ==>
              entries[j].artifact.header != started.(timestamp := entries[j].artifact.header.timestamp)
    ensures latest.Some? ==>
              && latest.value < |entries| && Continues(entries[latest.value], started)
              && entries[latest.value].artifact.header
                 == started.(timestamp := entries[latest.value].artifact.header.timestamp)
              && (forall j :: 0 <= j < |entries| && Continues(entries[j], started) ==>
                    entries[j].artifact.header.timestamp <= entries[latest.value].artifact.header.timestamp)
              && (forall j :: 0 <= j < latest.value && Continues(entries[j], started) ==>
                    entries[j].artifact.header.timestamp < entries[latest.value].artifact.header.timestamp)
  {
    latest := None;
    for k := 0 to |entries|
      invariant latest.None? <==> forall j :: 0 <= j < k ==> !Continues(entries[j], started)
      invariant latest.Some? ==>
                  && latest.value < k && Continues(entries[latest.value], started)
                  && (forall j :: 0 <= j < k && Continues(entries[j], started) ==>
                        entries[j].artifact.header.timestamp <= entries[latest.value].artifact.header.timestamp)
                  && (forall j :: 0 <= j < latest.value && Continues(entries[j], started) ==>
                        entries[j].artifact.header.timestamp < entries[latest.value].artifact.header.timestamp)
    {
      if Continues(entries[k], started)
         && (latest.None? || entries[k].artifact.header.timestamp > entries[latest.value].artifact.header.timestamp) {
        latest := Some(k);
      }
    }
  }
}
