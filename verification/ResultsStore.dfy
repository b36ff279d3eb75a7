/** The results directory under the estimate, profile, and link commands.

    Every disk operation of the commands is one atomic step: a file is replaced
    by a rename, a test file is removed or hard linked, a directory is renamed.
    A command may end after any step, by an error, by a crash, or by finishing.
    A test file is never written in place, so a hard link keeps its content. */
module ResultsStore {
  import opened Wrappers
  import opened EstimateRecords

  datatype Kind = Estimate | Profile

  /** The directory of one estimate. A test file holds the profile of one
      execution, named by the cost of that execution. */
  datatype Dir = Dir(artifact: Option<Artifact>, files: map<Name, Cost>)

  type Dirs = map<Id, Dir>

  datatype Disk = Disk(estimates: Dirs, profiles: Dirs) {
    function Of(kind: Kind): Dirs {
      match kind case Estimate => estimates case Profile => profiles
    }

    function With(kind: Kind, dirs: Dirs): Disk {
      match kind case Estimate => this.(estimates := dirs) case Profile => this.(profiles := dirs)
    }
  }

  const NO_DIR := Dir(None, map[])

  const NO_ARTIFACT := Artifact(Header(Guest("", ""), "", "", 0), NO_RECORDS)

  function DirAt(dirs: Dirs, id: Id): Dir {
    if id in dirs then dirs[id] else NO_DIR
  }

  /** The artifact at id, or an empty one for a missing file. */
  function ArtifactAt(dirs: Dirs, id: Id): Artifact {
    match DirAt(dirs, id).artifact
    case Some(artifact) => artifact
    case None => NO_ARTIFACT
  }

  // ---------- Atomic disk operations ----------

  function WriteArtifact(disk: Disk, kind: Kind, id: Id, artifact: Artifact): Disk {
    disk.With(kind, disk.Of(kind)[id := DirAt(disk.Of(kind), id).(artifact := Some(artifact))])
  }

  function WriteTestFile(disk: Disk, id: Id, name: Name, content: Cost): Disk {
    var dir := DirAt(disk.profiles, id);
    disk.(profiles := disk.profiles[id := dir.(files := dir.files[name := content])])
  }

  function RemoveTestFile(disk: Disk, id: Id, name: Name): Disk {
    var dir := DirAt(disk.profiles, id);
    disk.(profiles := disk.profiles[id := dir.(files := dir.files - {name})])
  }

  function RenameDir(disk: Disk, kind: Kind, from: Id, to: Id): Disk
    requires from in disk.Of(kind)
  {
    disk.With(kind, (disk.Of(kind) - {from})[to := disk.Of(kind)[from]])
  }

  // ---------- Commands ----------

  /** One estimate or profile command past its checks. result is the artifact in
      memory, and mirror is the estimate a profile also writes. */
  datatype Run = Run(kind: Kind, id: Id, header: Header, names: seq<Name>, result: Records, mirror: Option<Records>)

  /** Linking holds the copied costs whose test files are still to be linked,
      and the one whose stale file is gone. Measuring holds the test files that
      landed ahead of their records, and the mirror that is due after the
      artifact was saved. Renamed is a link command between its two renames. */
  datatype Mode =
    | Ready
    | Linking(run: Run, todo: map<Name, Id>, removed: Option<Name>)
    | Measuring(run: Run, landed: map<Name, Cost>, due: Option<Records>)
    | Renamed(kind: Kind, oldId: Id, id: Id, header: Header)

  datatype State = State(disk: Disk, mode: Mode)

  /** StartRun measures the tests of a run, StartNew and Continue those of a
      configuration instance. Each carries the listing it reads, the reuse that
      the listing gives, and the sources of the copied costs. */
  datatype Step =
    | StartRun(kind: Kind, id: Id, header: Header, names: seq<Name>, entries: seq<Entry>, result: Records,
               sources: map<Name, Id>)
    | StartNew(kind: Kind, id: Id, header: Header, names: seq<Name>, entries: seq<Entry>, result: Records,
               sources: map<Name, Id>)
    | Continue(kind: Kind, latest: nat, started: Header, names: seq<Name>, entries: seq<Entry>, result: Records,
               sources: map<Name, Id>)
    | RemoveStale(name: Name)
    | LinkFile(name: Name)
    | BeginMeasuring
    | FileLands(name: Name, cost: Cost)
    | Record(done: Outcome)
    | SaveArtifact
    | SaveMirror
    | MirrorFails
    | End
    | Link(kind: Kind, oldId: Id, id: Id, suite: string, elf: string)
    | LinkMirror

  /** The estimates of the directory, each once. */
  ghost predicate Lists(dirs: Dirs, entries: seq<Entry>) {
    && (forall k :: 0 <= k < |entries| ==>
          entries[k].id in dirs && entries[k].artifact == ArtifactAt(dirs, entries[k].id))
    && (forall j, k :: 0 <= j < k < |entries| ==> entries[j].id != entries[k].id)
    && (forall id :: id in dirs ==> exists k :: 0 <= k < |entries| && entries[k].id == id)
  }

  /** An artifact with records resumes only under its image and ELF. */
  predicate Resumable(artifact: Artifact, guest: Guest) {
    artifact.records == NO_RECORDS || artifact.header.guest == guest
  }

  /** The mirror of a profile, unless the estimate at the id holds another image,
      ELF, or suite. */
  function MirrorOf(disk: Disk, kind: Kind, id: Id, header: Header): Option<Records> {
    if kind.Estimate? then None
    else match DirAt(disk.estimates, id).artifact
      case None => Some(NO_RECORDS)
      case Some(mirror) => if SameEstimation(mirror.header, header) then Some(mirror.records) else None
  }

  ghost predicate Reuses(disk: Disk, kind: Kind, id: Id, header: Header, names: seq<Name>, base: Records,
                         entries: seq<Entry>, result: Records, sources: map<Name, Id>) {
    && Lists(disk.Of(kind), entries)
    && IsReuse(entries, |entries|, id, header, names, base, result)
    && AreSources(entries, |entries|, id, header, names, base, sources)
  }

  ghost predicate Enabled(s: State, step: Step) {
    match step
    case StartRun(kind, id, header, names, entries, result, sources) =>
      && s.mode.Ready?
      && Resumable(ArtifactAt(s.disk.Of(kind), id), header.guest)
      && Reuses(s.disk, kind, id, header, names, ArtifactAt(s.disk.Of(kind), id).records, entries, result, sources)
    case StartNew(kind, id, header, names, entries, result, sources) =>
      && s.mode.Ready? && id !in s.disk.Of(kind)
      && (forall k :: 0 <= k < |entries| ==> !Continues(entries[k], header))
      && Reuses(s.disk, kind, id, header, names, NO_RECORDS, entries, result, sources)
    case Continue(kind, latest, started, names, entries, result, sources) =>
      && s.mode.Ready? && latest < |entries| && Continues(entries[latest], started)
      && Reuses(s.disk, kind, entries[latest].id, entries[latest].artifact.header, names,
                entries[latest].artifact.records, entries, result, sources)
    case RemoveStale(name) =>
      s.mode.Linking? && s.mode.removed.None? && name in s.mode.todo
    case LinkFile(name) =>
      && s.mode.Linking? && s.mode.removed == Some(name) && name in s.mode.todo
      && name in DirAt(s.disk.profiles, s.mode.todo[name]).files
      && name !in DirAt(s.disk.profiles, s.mode.run.id).files
    case BeginMeasuring =>
      s.mode.Linking? && s.mode.todo == map[]
    case FileLands(name, cost) =>
      && s.mode.Measuring? && s.mode.run.kind.Profile?
      && name !in s.mode.run.result.Names() && name !in s.mode.landed
      && cost.guest == s.mode.run.header.guest
    case Record(done) =>
      && s.mode.Measuring? && s.mode.due.None? && done.name !in s.mode.run.result.Names()
      && (match done.measured
          case Faulted(fault) => fault.guest == s.mode.run.header.guest && done.name !in s.mode.landed
          case Priced(cost) =>
            && cost.guest == s.mode.run.header.guest
            && (s.mode.run.kind.Profile? ==> done.name in s.mode.landed && s.mode.landed[done.name] == cost))
    case SaveArtifact => s.mode.Measuring? && s.mode.due.None?
    case SaveMirror => s.mode.Measuring? && s.mode.due.Some?
    case MirrorFails => s.mode.Measuring? && s.mode.due.Some?
    case End => true
    case Link(kind, oldId, id, suite, elf) =>
      && s.mode.Ready? && oldId in s.disk.Of(kind) && id !in s.disk.Of(kind)
      && s.disk.Of(kind)[oldId].artifact.Some?
      && ArtifactAt(s.disk.Of(kind), oldId).header.suite == suite
      && ArtifactAt(s.disk.Of(kind), oldId).header.guest.elf == elf
    case LinkMirror =>
      && s.mode.Renamed? && s.mode.kind.Profile?
      && s.mode.oldId in s.disk.estimates && s.mode.id !in s.disk.estimates
      && SameEstimation(ArtifactAt(s.disk.estimates, s.mode.oldId).header, s.mode.header)
  }

  /** The test files of copied costs are linked only for a profile. */
  function Opened(disk: Disk, kind: Kind, id: Id, header: Header, names: seq<Name>, result: Records,
                  sources: map<Name, Id>): State {
    var run := Run(kind, id, header, names, result, MirrorOf(disk, kind, id, header));
    State(disk, Linking(run, if kind.Profile? then sources else map[], None))
  }

  ghost function Apply(s: State, step: Step): State
    requires Enabled(s, step)
  {
    match step
    case StartRun(kind, id, header, names, _, result, sources) =>
      Opened(s.disk, kind, id, header, names, result, sources)
    case StartNew(kind, id, header, names, _, result, sources) =>
      Opened(s.disk, kind, id, header, names, result, sources)
    case Continue(kind, latest, _, names, entries, result, sources) =>
      Opened(s.disk, kind, entries[latest].id, entries[latest].artifact.header, names, result, sources)
    case RemoveStale(name) =>
      State(RemoveTestFile(s.disk, s.mode.run.id, name), s.mode.(removed := Some(name)))
    case LinkFile(name) =>
      var content := DirAt(s.disk.profiles, s.mode.todo[name]).files[name];
      State(WriteTestFile(s.disk, s.mode.run.id, name, content), s.mode.(todo := s.mode.todo - {name}, removed := None))
    case BeginMeasuring => s.(mode := Measuring(s.mode.run, map[], None))
    case FileLands(name, cost) =>
      State(WriteTestFile(s.disk, s.mode.run.id, name, cost), s.mode.(landed := s.mode.landed[name := cost]))
    case Record(done) =>
      s.(mode := s.mode.(run := s.mode.run.(result := Recorded(s.mode.run.result, done)),
                         landed := s.mode.landed - {done.name}))
    case SaveArtifact =>
      var run := s.mode.run;
      State(WriteArtifact(s.disk, run.kind, run.id, Artifact(run.header, run.result)),
            s.mode.(due := if run.mirror.Some? then Some(Merged(run.mirror.value, run.result)) else None))
    case SaveMirror =>
      State(WriteArtifact(s.disk, Estimate, s.mode.run.id, Artifact(s.mode.run.header, s.mode.due.value)),
        s.mode.(due := None))
    case MirrorFails => s.(mode := s.mode.(due := None))
    case End => s.(mode := Ready)
    case Link(kind, oldId, id, _, _) =>
      State(RenameDir(s.disk, kind, oldId, id), Renamed(kind, oldId, id, ArtifactAt(s.disk.Of(kind), oldId).header))
    case LinkMirror => State(RenameDir(s.disk, Estimate, s.mode.oldId, s.mode.id), Ready)
  }

  /** The states that a sequence of steps passes through, from a sound disk with
      no command running. */
  ghost predicate IsHistory(history: seq<State>, steps: seq<Step>) {
    && |history| == |steps| + 1 && history[0].mode.Ready? && Sound(history[0].disk)
    && forall i :: 0 <= i < |steps| ==> Enabled(history[i], steps[i]) && history[i + 1] == Apply(history[i], steps[i])
  }

  // ---------- What every state keeps ----------

  /** Every record was measured under the image and ELF of the header, and no
      test has both a cost and a failure. */
  ghost predicate SoundArtifact(artifact: Artifact) {
    artifact.records.MeasuredUnder(artifact.header.guest) && artifact.records.Disjoint()
  }

  ghost predicate SoundArtifacts(dirs: Dirs) {
    forall id :: id in dirs && dirs[id].artifact.Some? ==> SoundArtifact(dirs[id].artifact.value)
  }

  /** Every cost of the profile has the test file of its execution. */
  ghost predicate HasItsFiles(dir: Dir) {
    dir.artifact.Some? ==> Covers(dir.files, dir.artifact.value.records.tests)
  }

  ghost predicate Covers(files: map<Name, Cost>, tests: map<Name, Cost>) {
    forall name :: name in tests ==> name in files && files[name] == tests[name]
  }

  ghost predicate Sound(disk: Disk) {
    && SoundArtifacts(disk.estimates) && SoundArtifacts(disk.profiles)
    && forall id :: id in disk.profiles ==> HasItsFiles(disk.profiles[id])
  }

  /** What a command in memory keeps beside the disk. */
  ghost predicate RunInv(disk: Disk, run: Run) {
    && SoundArtifact(Artifact(run.header, run.result))
    && (run.mirror.Some? ==>
          && run.kind.Profile? && SoundArtifact(Artifact(run.header, run.mirror.value))
          && ArtifactAt(disk.estimates, run.id).records.Names() <= run.mirror.value.Names() + run.result.Names())
    && ArtifactAt(disk.Of(run.kind), run.id).records.Within(run.result)
  }

  ghost predicate LinkInv(disk: Disk, run: Run, todo: map<Name, Id>, removed: Option<Name>) {
    var dir := DirAt(disk.profiles, run.id);
    && (removed.Some? ==> removed.value in todo && removed.value !in dir.files)
    && (run.kind.Estimate? ==> todo == map[])
    && (run.kind.Profile? ==> forall name :: name in run.result.tests && name !in todo ==>
          name in dir.files && dir.files[name] == run.result.tests[name])
    && (forall name :: name in todo ==> ToLink(disk, run, todo[name], name))
  }

  /** A copied cost is not saved yet, and its donor has its test file. */
  ghost predicate ToLink(disk: Disk, run: Run, donor: Id, name: Name) {
    && donor != run.id && name in run.result.tests
    && name !in ArtifactAt(disk.profiles, run.id).records.tests
    && name in DirAt(disk.profiles, donor).files
    && DirAt(disk.profiles, donor).files[name] == run.result.tests[name]
  }

  ghost predicate MeasureInv(disk: Disk, run: Run, landed: map<Name, Cost>, due: Option<Records>) {
    && (run.kind.Estimate? ==> landed == map[])
    && (run.kind.Profile? ==>
          && Covers(DirAt(disk.profiles, run.id).files, run.result.tests)
          && Covers(DirAt(disk.profiles, run.id).files, landed))
    && landed.Keys !! run.result.Names()
    && (due.Some? ==> run.mirror.Some? && due.value == Merged(run.mirror.value, run.result))
  }

  ghost predicate Inv(s: State) {
    && Sound(s.disk)
    && match s.mode
       case Ready => true
       case Renamed(_, _, _, _) => true
       case Linking(run, todo, removed) => RunInv(s.disk, run) && LinkInv(s.disk, run, todo, removed)
       case Measuring(run, landed, due) => RunInv(s.disk, run) && MeasureInv(s.disk, run, landed, due)
  }

  lemma ListedAreSound(disk: Disk, kind: Kind, entries: seq<Entry>)
    requires Sound(disk) && Lists(disk.Of(kind), entries)
    ensures forall entry :: entry in entries ==> entry.artifact.records.MeasuredUnder(entry.artifact.header.guest)
  {
  }

  lemma OpenKeepsInv(disk: Disk, kind: Kind, id: Id, header: Header, names: seq<Name>, base: Records,
                     entries: seq<Entry>, result: Records, sources: map<Name, Id>)
    requires Sound(disk)
    requires Reuses(disk, kind, id, header, names, base, entries, result, sources)
    requires base == ArtifactAt(disk.Of(kind), id).records
    requires base.MeasuredUnder(header.guest) && base.Disjoint()
    ensures Inv(Opened(disk, kind, id, header, names, result, sources))
  {
    ListedAreSound(disk, kind, entries);
    ReuseKeepsRecords(entries, id, header, names, base, result);
    OpenHasRun(disk, kind, id, header, names, result);
    hide Sound, Lists, IsReuse, AreSources, RunInv, MirrorOf, Records.Disjoint, Records.Within, Records.MeasuredUnder;
    if kind.Profile? {
      forall name
        ensures name in result.tests && name !in sources ==>
                  name in DirAt(disk.profiles, id).files && DirAt(disk.profiles, id).files[name] == result.tests[name]
        ensures name in sources ==>
                ToLink(disk, Run(kind, id, header, names, result, MirrorOf(disk, kind, id, header)),
                       sources[name], name)
      {
        CopiedCostHasDonor(disk, id, header, names, base, entries, result, sources, name);
      }
    }
  }

  /** The run of a command, with the mirror it reads. */
  lemma OpenHasRun(disk: Disk, kind: Kind, id: Id, header: Header, names: seq<Name>, result: Records)
    requires Sound(disk) && SoundArtifact(Artifact(header, result))
    requires ArtifactAt(disk.Of(kind), id).records.Within(result)
    ensures RunInv(disk, Run(kind, id, header, names, result, MirrorOf(disk, kind, id, header)))
  {
  }

  lemma CopiedCostHasDonor(disk: Disk, id: Id, header: Header, names: seq<Name>, base: Records,
                           entries: seq<Entry>, result: Records, sources: map<Name, Id>, name: Name)
    requires Sound(disk)
    requires Reuses(disk, Profile, id, header, names, base, entries, result, sources)
    requires base == ArtifactAt(disk.profiles, id).records
    ensures name in result.tests && name !in sources ==> name in base.tests && result.tests[name] == base.tests[name]
    ensures name in base.tests ==>
              name in DirAt(disk.profiles, id).files && DirAt(disk.profiles, id).files[name] == base.tests[name]
    ensures name in sources ==>
              && sources[name] != id && name in result.tests && name !in base.tests
              && name in DirAt(disk.profiles, sources[name]).files
              && DirAt(disk.profiles, sources[name]).files[name] == result.tests[name]
  {
    assert ReuseOf(entries, |entries|, id, header, names, base, result, name);
    assert SourceOf(entries, |entries|, id, header, names, base, sources, name);
    DonorIsFirst(entries, |entries|, id, header, name);
    var donor := Donor(entries, |entries|, id, header, name);
    if name in Pending(names, base) && donor.Some? {
      var dir := disk.profiles[entries[donor.value].id];
      assert HasItsFiles(dir);
    }
  }

  lemma StartKeepsInv(s: State, step: Step)
    requires Inv(s) && Enabled(s, step) && (step.StartRun? || step.StartNew? || step.Continue?)
    ensures Inv(Apply(s, step))
  {
    match step
    case StartRun(kind, id, header, names, entries, result, sources) =>
      OpenKeepsInv(s.disk, kind, id, header, names, ArtifactAt(s.disk.Of(kind), id).records, entries, result, sources);
    case StartNew(kind, id, header, names, entries, result, sources) =>
      OpenKeepsInv(s.disk, kind, id, header, names, NO_RECORDS, entries, result, sources);
    case Continue(kind, latest, started, names, entries, result, sources) =>
      OpenKeepsInv(s.disk, kind, entries[latest].id, entries[latest].artifact.header, names,
                   entries[latest].artifact.records, entries, result, sources);
  }

  lemma RemoveStaleKeepsInv(s: State, name: Name)
    requires Inv(s) && Enabled(s, RemoveStale(name))
    ensures Inv(Apply(s, RemoveStale(name)))
  {
    var run, todo := s.mode.run, s.mode.todo;
    var disk := RemoveTestFile(s.disk, run.id, name);
    var dir := DirAt(disk.profiles, run.id);
    assert ToLink(s.disk, run, todo[name], name);
    assert dir.artifact == DirAt(s.disk.profiles, run.id).artifact;
    assert HasItsFiles(dir);
    assert Sound(disk);
    assert RunInv(disk, run);
    forall other | other in todo ensures ToLink(disk, run, todo[other], other) {
      assert ToLink(s.disk, run, todo[other], other);
    }
  }

  lemma LinkFileKeepsInv(s: State, name: Name)
    requires Inv(s) && Enabled(s, LinkFile(name))
    ensures Inv(Apply(s, LinkFile(name)))
  {
    var run, todo := s.mode.run, s.mode.todo;
    assert ToLink(s.disk, run, todo[name], name);
    var content := DirAt(s.disk.profiles, todo[name]).files[name];
    var disk := WriteTestFile(s.disk, run.id, name, content);
    var dir := DirAt(disk.profiles, run.id);
    assert dir.artifact == DirAt(s.disk.profiles, run.id).artifact;
    assert HasItsFiles(dir);
    assert Sound(disk);
    assert RunInv(disk, run);
    forall other | other in todo - {name} ensures ToLink(disk, run, todo[other], other) {
      assert ToLink(s.disk, run, todo[other], other);
    }
  }

  lemma FileLandsKeepsInv(s: State, name: Name, cost: Cost)
    requires Inv(s) && Enabled(s, FileLands(name, cost))
    ensures Inv(Apply(s, FileLands(name, cost)))
  {
    var run := s.mode.run;
    var disk := WriteTestFile(s.disk, run.id, name, cost);
    assert DirAt(disk.profiles, run.id).artifact == DirAt(s.disk.profiles, run.id).artifact;
    assert HasItsFiles(DirAt(disk.profiles, run.id));
    assert Sound(disk);
    assert RunInv(disk, run);
  }

  lemma RecordKeepsInv(s: State, done: Outcome)
    requires Inv(s) && Enabled(s, Record(done))
    ensures Inv(Apply(s, Record(done)))
  {
    var run := s.mode.run;
    RecordGrows(run.result, done, run.header.guest);
    RecordKeepsRun(s.disk, run, Recorded(run.result, done), s.mode.landed, done);
  }

  /** One more record, whose test file landed if it is a cost of a profile. */
  lemma RecordKeepsRun(disk: Disk, run: Run, result: Records, landed: map<Name, Cost>, done: Outcome)
    requires RunInv(disk, run) && MeasureInv(disk, run, landed, None)
    requires run.result.Within(result) && result.Disjoint() && result.MeasuredUnder(run.header.guest)
    requires result.Names() == run.result.Names() + {done.name}
    requires forall name :: name in result.tests && name !in run.result.tests && run.kind.Profile? ==>
               name in landed && landed[name] == result.tests[name]
    ensures RunInv(disk, run.(result := result)) && MeasureInv(disk, run.(result := result), landed - {done.name}, None)
  {
  }

  /** Replacing an artifact by a sound one that the test files cover. */
  lemma WriteKeepsSound(disk: Disk, kind: Kind, id: Id, artifact: Artifact)
    requires Sound(disk) && SoundArtifact(artifact)
    requires kind.Profile? ==> Covers(DirAt(disk.profiles, id).files, artifact.records.tests)
    ensures Sound(WriteArtifact(disk, kind, id, artifact))
    ensures forall other ::
              DirAt(WriteArtifact(disk, kind, id, artifact).profiles, other).files == DirAt(disk.profiles, other).files
  {
  }

  lemma SaveArtifactKeepsInv(s: State)
    requires Inv(s) && Enabled(s, SaveArtifact)
    ensures Inv(Apply(s, SaveArtifact))
  {
    var run := s.mode.run;
    var artifact := Artifact(run.header, run.result);
    WriteKeepsSound(s.disk, run.kind, run.id, artifact);
    assert RunInv(WriteArtifact(s.disk, run.kind, run.id, artifact), run);
  }

  /** Writing the estimate a profile mirrors leaves the profile as it is. */
  lemma MirrorWriteKeepsRun(disk: Disk, run: Run, landed: map<Name, Cost>, due: Option<Records>, merged: Records)
    requires RunInv(disk, run) && MeasureInv(disk, run, landed, due) && run.mirror.Some?
    requires merged.Names() == run.mirror.value.Names() + run.result.Names()
    ensures var saved := WriteArtifact(disk, Estimate, run.id, Artifact(run.header, merged));
            RunInv(saved, run) && MeasureInv(saved, run, landed, None)
  {
    var saved := WriteArtifact(disk, Estimate, run.id, Artifact(run.header, merged));
    assert saved.profiles == disk.profiles;
    assert ArtifactAt(saved.estimates, run.id).records == merged;
  }

  lemma SaveMirrorKeepsInv(s: State)
    requires Inv(s) && Enabled(s, SaveMirror)
    ensures Inv(Apply(s, SaveMirror))
  {
    var run, merged := s.mode.run, s.mode.due.value;
    MergeKeepsEveryName(run.mirror.value, run.result);
    MergeKeepsGuest(run.mirror.value, run.result, run.header.guest);
    WriteKeepsSound(s.disk, Estimate, run.id, Artifact(run.header, merged));
    MirrorWriteKeepsRun(s.disk, run, s.mode.landed, s.mode.due, merged);
  }

  lemma RenameKeepsInv(s: State, step: Step)
    requires Inv(s) && Enabled(s, step)
    requires step.BeginMeasuring? || step.MirrorFails? || step.End? || step.Link? || step.LinkMirror?
    ensures Inv(Apply(s, step))
  {
  }

  /** Every step of every command, and every crash, keeps the disk sound. */
  lemma StepKeepsInv(s: State, step: Step)
    requires Inv(s) && Enabled(s, step)
    ensures Inv(Apply(s, step))
  {
    if step.StartRun? || step.StartNew? || step.Continue? { StartKeepsInv(s, step); }
    else if step.RemoveStale? { RemoveStaleKeepsInv(s, step.name); }
    else if step.LinkFile? { LinkFileKeepsInv(s, step.name); }
    else if step.FileLands? { FileLandsKeepsInv(s, step.name, step.cost); }
    else if step.Record? { RecordKeepsInv(s, step.done); }
    else if step.SaveArtifact? { SaveArtifactKeepsInv(s); }
    else if step.SaveMirror? { SaveMirrorKeepsInv(s); }
    else { RenameKeepsInv(s, step); }
  }

  lemma {:induction false} HistoryKeepsInv(history: seq<State>, steps: seq<Step>, n: nat)
    requires IsHistory(history, steps) && n < |history|
    ensures Inv(history[n])
  {
    if n > 0 {
      HistoryKeepsInv(history, steps, n - 1);
      StepKeepsInv(history[n - 1], steps[n - 1]);
    }
  }

  // ---------- Main results ----------

  /** Crash consistency: at every point of every sequence of commands, every test
      with a cost in a profile on disk has the test file of that execution. */
  lemma ProfilesHaveTheirFiles(history: seq<State>, steps: seq<Step>, n: nat, id: Id, name: Name)
    requires IsHistory(history, steps) && n < |history|
    requires name in ArtifactAt(history[n].disk.profiles, id).records.tests
    ensures name in history[n].disk.profiles[id].files
    ensures history[n].disk.profiles[id].files[name] == ArtifactAt(history[n].disk.profiles, id).records.tests[name]
  {
    HistoryKeepsInv(history, steps, n);
    assert HasItsFiles(history[n].disk.profiles[id]);
  }

  /** Provenance: every record of every artifact on disk, mirrors included, was
      measured under the image and the ELF its header names. */
  lemma RecordsMatchTheirHeader(history: seq<State>, steps: seq<Step>, n: nat, kind: Kind, id: Id)
    requires IsHistory(history, steps) && n < |history|
    ensures var artifact := ArtifactAt(history[n].disk.Of(kind), id);
            artifact.records.MeasuredUnder(artifact.header.guest) && artifact.records.Disjoint()
  {
    HistoryKeepsInv(history, steps, n);
  }

  /** A hard link never fails: its donor keeps its test file, and the stale file
      is gone. */
  lemma LinkingNeverSticks(history: seq<State>, steps: seq<Step>, n: nat)
    requires IsHistory(history, steps) && n < |history| && history[n].mode.Linking?
    ensures Enabled(history[n], BeginMeasuring)
            || exists name :: Enabled(history[n], RemoveStale(name)) || Enabled(history[n], LinkFile(name))
  {
    HistoryKeepsInv(history, steps, n);
    var mode := history[n].mode;
    if mode.removed.Some? {
      var name := mode.removed.value;
      assert ToLink(history[n].disk, mode.run, mode.todo[name], name);
      assert Enabled(history[n], LinkFile(name));
    } else if mode.todo != map[] {
      assert mode.todo.Keys != {};
      var name :| name in mode.todo;
      assert Enabled(history[n], RemoveStale(name));
    }
  }

  // ---------- When a command resumes, mirrors and links ----------

  /** A command resumes what is at an id, whatever else is listed, exactly when
      nothing is recorded there or its image and its ELF are those recorded. */
  lemma ResumesExactly(s: State, kind: Kind, id: Id, header: Header, names: seq<Name>, entries: seq<Entry>)
    requires s.mode.Ready? && Lists(s.disk.Of(kind), entries)
    ensures (exists result, sources :: Enabled(s, StartRun(kind, id, header, names, entries, result, sources))) <==>
            var at := ArtifactAt(s.disk.Of(kind), id);
            || (at.records.tests == map[] && at.records.failures == map[])
            || (at.header.guest.image == header.guest.image && at.header.guest.elf == header.guest.elf)
  {
    hide Lists, IsReuse, AreSources;
    var base := ArtifactAt(s.disk.Of(kind), id).records;
    ReuseExists(entries, |entries|, id, header, names, base);
    var result, sources :| && IsReuse(entries, |entries|, id, header, names, base, result)
                           && AreSources(entries, |entries|, id, header, names, base, sources);
    assert Resumable(ArtifactAt(s.disk.Of(kind), id), header.guest) ==>
             Enabled(s, StartRun(kind, id, header, names, entries, result, sources));
  }

  ghost predicate IsStart(step: Step) {
    step.StartRun? || step.StartNew? || step.Continue?
  }

  /** A command reads its mirror as it starts and keeps it: none for an estimate,
      for a profile the estimate at its id if that is missing or of the same
      image, ELF, and suite. Every save of the artifact makes a merge due exactly
      for a profile with a mirror. */
  lemma {:induction false} MirrorIsReadAtStart(history: seq<State>, steps: seq<Step>, i: nat, j: nat)
    requires IsHistory(history, steps) && i < j < |history|
    requires IsStart(steps[i]) && forall n :: i < n < j ==> steps[n] != End
    ensures history[j].mode.Linking? || history[j].mode.Measuring?
    ensures var run, was := history[j].mode.run, history[i].disk.estimates;
            var missing := run.id !in was || was[run.id].artifact.None?;
            && (run.mirror.Some? <==>
                  && steps[i].kind.Profile?
                  && (missing || was[run.id].artifact.value.header
                                 == run.header.(instance := was[run.id].artifact.value.header.instance,
                                                timestamp := was[run.id].artifact.value.header.timestamp)))
            && (run.mirror.Some? ==>
                  run.mirror.value == if missing then NO_RECORDS else was[run.id].artifact.value.records)
            && (steps[j - 1] == SaveArtifact ==> (history[j].mode.due.Some? <==> run.mirror.Some?))
  {
    hide Reuses, Lists, Resumable, Continues, Sound, Recorded, Merged;
    var last := j - 1;
    if i < last {
      MirrorIsReadAtStart(history, steps, i, last);
      hide MirrorOf, DirAt, Opened;
      RunKeepsMirror(history[last], steps[last]);
      hide Enabled, Apply;
    }
    assert history[last + 1] == Apply(history[last], steps[last]);
  }

  lemma RunKeepsMirror(s: State, step: Step)
    requires Enabled(s, step) && step != End && (s.mode.Linking? || s.mode.Measuring?)
    ensures var mode := Apply(s, step).mode;
            && (mode.Linking? || mode.Measuring?)
            && mode.run.id == s.mode.run.id && mode.run.header == s.mode.run.header
            && mode.run.mirror == s.mode.run.mirror
            && (step == SaveArtifact ==> mode.Measuring? && (mode.due.Some? <==> mode.run.mirror.Some?))
  {
  }

  /** A link moves the whole directory of an estimate of the suite and the ELF of
      the run to an id that is free, and touches nothing else. A profile then
      takes along the estimate at its old id, if that is of the same image, ELF,
      and suite and the new id is free there. */
  lemma LinkMovesWhole(s: State, step: Step)
    requires Enabled(s, step) && (step.Link? || step.LinkMirror?)
    ensures var kind := if step.Link? then step.kind else Estimate;
            var from := if step.Link? then step.oldId else s.mode.oldId;
            var to := if step.Link? then step.id else s.mode.id;
            var before, after := s.disk.Of(kind), Apply(s, step).disk.Of(kind);
            && from in before && to !in before && from !in after && to in after && after[to] == before[from]
            && (forall other :: other != from && other != to ==>
                  (other in after <==> other in before) && (other in before ==> after[other] == before[other]))
            && (forall other :: other != kind ==> Apply(s, step).disk.Of(other) == s.disk.Of(other))
            && (step.Link? ==> before[from].artifact.Some?)
            && var header := ArtifactAt(before, from).header;
              if step.Link? then header.suite == step.suite && header.guest.elf == step.elf
              else s.mode.kind.Profile? && header.guest == s.mode.header.guest && header.suite == s.mode.header.suite
  {
  }

  /** The names an artifact on disk holds. */
  ghost function NamesAt(disk: Disk, kind: Kind, id: Id): set<Name> {
    ArtifactAt(disk.Of(kind), id).records.Names()
  }

  /** Where the estimate at id is after a step, which only a link moves. */
  function Moved(mode: Mode, step: Step, kind: Kind, id: Id): Id {
    match step
    case Link(linked, oldId, newId, _, _) => if linked == kind && oldId == id then newId else id
    case LinkMirror => if mode.Renamed? && kind.Estimate? && mode.oldId == id then mode.id else id
    case _ => id
  }

  lemma SaveLosesNoName(s: State, step: Step, kind: Kind, id: Id)
    requires Inv(s) && Enabled(s, step) && (step.SaveArtifact? || step.SaveMirror?)
    ensures NamesAt(s.disk, kind, id) <= NamesAt(Apply(s, step).disk, kind, id)
  {
    if step.SaveMirror? {
      MergeKeepsEveryName(s.mode.run.mirror.value, s.mode.run.result);
    }
  }

  lemma LinkLosesNoName(s: State, step: Step, kind: Kind, id: Id)
    requires Enabled(s, step) && (step.Link? || step.LinkMirror?)
    ensures NamesAt(s.disk, kind, id) <= NamesAt(Apply(s, step).disk, kind, Moved(s.mode, step, kind, id))
  {
  }

  lemma StepLosesNoName(s: State, step: Step, kind: Kind, id: Id)
    requires Inv(s) && Enabled(s, step)
    ensures NamesAt(s.disk, kind, id) <= NamesAt(Apply(s, step).disk, kind, Moved(s.mode, step, kind, id))
  {
    if step.SaveArtifact? || step.SaveMirror? { SaveLosesNoName(s, step, kind, id); }
    else if step.Link? || step.LinkMirror? { LinkLosesNoName(s, step, kind, id); }
    else { assert DirAt(Apply(s, step).disk.Of(kind), id).artifact == DirAt(s.disk.Of(kind), id).artifact; }
  }

  /** Where the estimate at id of history[i] is at history[j]. */
  function MovedBy(history: seq<State>, steps: seq<Step>, i: nat, j: nat, kind: Kind, id: Id): Id
    requires i <= j <= |steps| <= |history|
  {
    if i == j then id
    else Moved(history[j - 1].mode, steps[j - 1], kind, MovedBy(history, steps, i, j - 1, kind, id))
  }

  /** No save, reuse, merge, link, or crash ever loses the name of a test that an
      artifact on disk held. Only a link moves the artifact. */
  lemma {:induction false} HistoryLosesNoName(history: seq<State>, steps: seq<Step>, i: nat, j: nat, kind: Kind, id: Id)
    requires IsHistory(history, steps) && i <= j < |history|
    ensures NamesAt(history[i].disk, kind, id)
            <= NamesAt(history[j].disk, kind, MovedBy(history, steps, i, j, kind, id))
  {
    if i < j {
      HistoryLosesNoName(history, steps, i, j - 1, kind, id);
      HistoryKeepsInv(history, steps, j - 1);
      StepLosesNoName(history[j - 1], steps[j - 1], kind, MovedBy(history, steps, i, j - 1, kind, id));
    }
  }

  // ---------- Interrupted and resumed profiles ----------

  /** The merge of base with some of the records of bound. */
  ghost predicate MergedUpTo(base: Records, bound: Records, have: Records) {
    exists older: Records :: older.Within(bound) && have == Merged(base, older)
  }

  lemma WithinChain(a: Records, b: Records, c: Records)
    requires a.Within(b) && b.Within(c)
    ensures a.Within(c)
  {
  }

  lemma MergedUpToMore(base: Records, bound: Records, more: Records, have: Records)
    requires MergedUpTo(base, bound, have) && bound.Within(more)
    ensures MergedUpTo(base, more, have)
  {
    hide Records.Within, Merged;
    var older: Records :| older.Within(bound) && have == Merged(base, older);
    WithinChain(older, bound, more);
  }

  lemma MergedWithNothing(base: Records, bound: Records)
    ensures MergedUpTo(base, bound, base)
  {
    assert Merged(base, NO_RECORDS) == base;
    assert NO_RECORDS.Within(bound);
  }

  /** Merging what an interruption left gives what merging once gives. */
  lemma MergedAtLast(base: Records, bound: Records, have: Records)
    requires MergedUpTo(base, bound, have) && base.Disjoint() && bound.Disjoint()
    ensures Merged(have, bound) == Merged(base, bound)
    ensures MergedUpTo(base, bound, Merged(have, bound))
  {
    var older: Records :| older.Within(bound) && have == Merged(base, older);
    MergeForgetsInterruption(base, older, bound);
    assert bound.Within(bound);
  }

  /** The step lets only profiles of this estimation write the estimate and the
      profile at id. Any command may work on any other id, and may end. */
  predicate Spares(s: State, step: Step, id: Id, header: Header) {
    match step
    case StartRun(kind, target, started, _, _, _, _) =>
      target == id ==> kind.Profile? && SameEstimation(started, header)
    case StartNew(kind, target, started, _, _, _, _) =>
      target == id ==> kind.Profile? && SameEstimation(started, header)
    case Continue(kind, latest, _, _, entries, _, _) =>
      latest < |entries| && entries[latest].id == id ==>
        kind.Profile? && SameEstimation(entries[latest].artifact.header, header)
    case Link(_, oldId, newId, _, _) => oldId != id && newId != id
    case _ => true
  }

  /** The estimate at id, if there is one, is of this estimation. */
  ghost predicate MayMirror(disk: Disk, id: Id, header: Header) {
    match DirAt(disk.estimates, id).artifact
    case Some(artifact) => SameEstimation(artifact.header, header)
    case None => true
  }

  /** The estimate at id merges base with records that the profile at id holds. */
  ghost predicate DiskMirrors(disk: Disk, id: Id, header: Header, base: Records) {
    && MayMirror(disk, id, header)
    && MergedUpTo(base, ArtifactAt(disk.profiles, id).records, ArtifactAt(disk.estimates, id).records)
  }

  /** A command at id is such a profile, which read such a mirror. */
  ghost predicate RunMirrors(run: Run, id: Id, header: Header, base: Records) {
    run.id == id ==>
      && run.kind.Profile? && SameEstimation(run.header, header)
      && run.mirror.Some? && MergedUpTo(base, run.result, run.mirror.value)
  }

  ghost predicate ModeMirrors(disk: Disk, mode: Mode, id: Id, header: Header, base: Records) {
    match mode
    case Ready => true
    case Renamed(_, oldId, newId, _) => oldId != id && newId != id
    case Linking(run, _, _) => RunMirrors(run, id, header, base)
    case Measuring(run, _, due) =>
      && RunMirrors(run, id, header, base)
      && (run.id == id && due.Some? ==> ArtifactAt(disk.profiles, id).records == run.result)
  }

  ghost predicate Mirrors(s: State, id: Id, header: Header, base: Records) {
    DiskMirrors(s.disk, id, header, base) && ModeMirrors(s.disk, s.mode, id, header, base)
  }

  /** A command at id reads the mirror that the disk holds. */
  lemma OpenMirrors(disk: Disk, kind: Kind, target: Id, started: Header, names: seq<Name>, result: Records,
                    sources: map<Name, Id>, id: Id, header: Header, base: Records)
    requires DiskMirrors(disk, id, header, base)
    requires target == id ==> kind.Profile? && SameEstimation(started, header)
    requires target == id ==> ArtifactAt(disk.Of(kind), id).records.Within(result)
    ensures Mirrors(Opened(disk, kind, target, started, names, result, sources), id, header, base)
  {
    if target == id {
      assert MirrorOf(disk, kind, id, started) == Some(ArtifactAt(disk.estimates, id).records);
      MergedUpToMore(base, ArtifactAt(disk.profiles, id).records, result, ArtifactAt(disk.estimates, id).records);
    }
  }

  lemma StartMirrors(s: State, step: Step, id: Id, header: Header, base: Records)
    requires Inv(s) && Enabled(s, step) && Spares(s, step, id, header) && Mirrors(s, id, header, base)
    requires step.StartRun? || step.StartNew? || step.Continue?
    ensures Mirrors(Apply(s, step), id, header, base)
  {
    StartKeepsInv(s, step);
    var run := Apply(s, step).mode.run;
    assert RunInv(s.disk, run);
    hide Sound, Reuses, LinkInv, RunInv, MirrorOf, MergedUpTo, Resumable, Continues;
    match step
    case StartRun(kind, target, started, names, _, result, sources) =>
      OpenMirrors(s.disk, kind, target, started, names, result, sources, id, header, base);
    case StartNew(kind, target, started, names, _, result, sources) =>
      OpenMirrors(s.disk, kind, target, started, names, result, sources, id, header, base);
    case Continue(kind, latest, _, names, entries, result, sources) =>
      OpenMirrors(s.disk, kind, entries[latest].id, entries[latest].artifact.header, names, result, sources, id,
        header, base);
  }

  lemma RecordMirrors(s: State, done: Outcome, id: Id, header: Header, base: Records)
    requires Inv(s) && Enabled(s, Record(done)) && Mirrors(s, id, header, base)
    ensures Mirrors(Apply(s, Record(done)), id, header, base)
  {
    var run := s.mode.run;
    RecordGrows(run.result, done, run.header.guest);
    hide Sound, MeasureInv, MergedUpTo, DiskMirrors, Recorded;
    if run.id == id {
      MergedUpToMore(base, run.result, Recorded(run.result, done), run.mirror.value);
    }
  }

  lemma WrittenAt(disk: Disk, kind: Kind, target: Id, artifact: Artifact, id: Id)
    ensures var written := WriteArtifact(disk, kind, target, artifact);
            && DirAt(written.estimates, id).artifact
               == (if kind.Estimate? && target == id then Some(artifact) else DirAt(disk.estimates, id).artifact)
            && DirAt(written.profiles, id).artifact
               == (if kind.Profile? && target == id then Some(artifact) else DirAt(disk.profiles, id).artifact)
  {
  }

  lemma ResultHoldsSaved(disk: Disk, run: Run)
    requires RunInv(disk, run)
    ensures ArtifactAt(disk.Of(run.kind), run.id).records.Within(run.result) && run.result.Disjoint()
  {
  }

  /** The disk after the save of the artifact of run. */
  lemma ArtifactWriteMirrors(disk: Disk, run: Run, id: Id, header: Header, base: Records)
    requires RunInv(disk, run) && DiskMirrors(disk, id, header, base) && RunMirrors(run, id, header, base)
    ensures var saved := WriteArtifact(disk, run.kind, run.id, Artifact(run.header, run.result));
            && DiskMirrors(saved, id, header, base)
            && (run.id == id ==> ArtifactAt(saved.profiles, id).records == run.result)
  {
    WrittenAt(disk, run.kind, run.id, Artifact(run.header, run.result), id);
    ResultHoldsSaved(disk, run);
    hide RunInv, WriteArtifact, DirAt, MergedUpTo, Records.Within, Records.Disjoint, SameEstimation;
    if run.id == id {
      MergedUpToMore(base, ArtifactAt(disk.profiles, id).records, run.result, ArtifactAt(disk.estimates, id).records);
    }
  }

  /** The disk after the save of the mirror that is due. */
  lemma MirrorWriteMirrors(disk: Disk, run: Run, due: Records, id: Id, header: Header, base: Records)
    requires RunInv(disk, run) && DiskMirrors(disk, id, header, base) && RunMirrors(run, id, header, base)
             && base.Disjoint()
    requires run.mirror.Some? && due == Merged(run.mirror.value, run.result)
    requires run.id == id ==> ArtifactAt(disk.profiles, id).records == run.result
    ensures var saved := WriteArtifact(disk, Estimate, run.id, Artifact(run.header, due));
            && DiskMirrors(saved, id, header, base)
            && (run.id == id ==>
                  && ArtifactAt(saved.estimates, id).records == Merged(base, run.result)
                  && ArtifactAt(saved.profiles, id).records == run.result)
  {
    WrittenAt(disk, Estimate, run.id, Artifact(run.header, due), id);
    ResultHoldsSaved(disk, run);
    hide RunInv, WriteArtifact, DirAt, MergedUpTo, Merged, Records.Within, Records.Disjoint, SameEstimation;
    if run.id == id {
      MergedAtLast(base, run.result, run.mirror.value);
    }
  }

  lemma SaveArtifactMirrors(s: State, id: Id, header: Header, base: Records)
    requires Inv(s) && Enabled(s, SaveArtifact) && Mirrors(s, id, header, base)
    ensures Mirrors(Apply(s, SaveArtifact), id, header, base)
  {
    hide RunInv, MeasureInv, Sound, DiskMirrors, RunMirrors, WriteArtifact, Merged;
    ArtifactWriteMirrors(s.disk, s.mode.run, id, header, base);
  }

  lemma SaveMirrorMirrors(s: State, id: Id, header: Header, base: Records)
    requires Inv(s) && Enabled(s, SaveMirror) && Mirrors(s, id, header, base) && base.Disjoint()
    ensures Mirrors(Apply(s, SaveMirror), id, header, base)
    ensures s.mode.run.id == id ==>
              var disk := Apply(s, SaveMirror).disk;
              ArtifactAt(disk.estimates, id).records == Merged(base, ArtifactAt(disk.profiles, id).records)
  {
    DueIsMerged(s);
    hide RunInv, MeasureInv, Sound, DiskMirrors, RunMirrors, WriteArtifact, Merged, DirAt, Records.Disjoint;
    MirrorWriteMirrors(s.disk, s.mode.run, s.mode.due.value, id, header, base);
  }

  lemma DueIsMerged(s: State)
    requires Inv(s) && Enabled(s, SaveMirror)
    ensures s.mode.run.mirror.Some? && s.mode.due == Some(Merged(s.mode.run.mirror.value, s.mode.run.result))
  {
    hide Sound, RunInv, Merged;
  }

  lemma QuietMirrors(s: State, step: Step, id: Id, header: Header, base: Records)
    requires Enabled(s, step) && Spares(s, step, id, header) && Mirrors(s, id, header, base)
    requires step.RemoveStale? || step.LinkFile? || step.BeginMeasuring? || step.FileLands? || step.MirrorFails?
             || step.End? || step.Link? || step.LinkMirror?
    ensures Mirrors(Apply(s, step), id, header, base)
  {
    hide MergedUpTo, SameEstimation, MirrorOf;
    var disk := Apply(s, step).disk;
    assert DirAt(disk.estimates, id).artifact == DirAt(s.disk.estimates, id).artifact;
    assert DirAt(disk.profiles, id).artifact == DirAt(s.disk.profiles, id).artifact;
  }

  lemma StepMirrors(s: State, step: Step, id: Id, header: Header, base: Records)
    requires Inv(s) && Enabled(s, step) && Spares(s, step, id, header) && Mirrors(s, id, header, base)
             && base.Disjoint()
    ensures Mirrors(Apply(s, step), id, header, base)
  {
    hide Inv, Enabled, Apply, Spares, Mirrors;
    if step.StartRun? || step.StartNew? || step.Continue? { StartMirrors(s, step, id, header, base); }
    else if step.Record? { RecordMirrors(s, step.done, id, header, base); }
    else if step.SaveArtifact? { SaveArtifactMirrors(s, id, header, base); }
    else if step.SaveMirror? { SaveMirrorMirrors(s, id, header, base); }
    else { QuietMirrors(s, step, id, header, base); }
  }

  /** The commands from history[i] to history[j] spare the estimate at id, which
      is one that a profile of this estimation mirrors into. */
  ghost predicate IsSpared(history: seq<State>, steps: seq<Step>, i: nat, j: nat, id: Id, header: Header) {
    && IsHistory(history, steps) && i <= j < |history|
    && history[i].mode.Ready? && MayMirror(history[i].disk, id, header)
    && forall n :: i <= n < j ==> Spares(history[n], steps[n], id, header)
  }

  /** At every point of such a history, the middle of a command included, the
      estimate merges the one at its start with records of the profile. */
  lemma {:induction false} HistoryMirrors(history: seq<State>, steps: seq<Step>, i: nat, j: nat, id: Id, header: Header)
    requires IsSpared(history, steps, i, j, id, header)
    ensures var base := ArtifactAt(history[i].disk.estimates, id).records;
            base.Disjoint() && Mirrors(history[j], id, header, base)
  {
    var base := ArtifactAt(history[i].disk.estimates, id).records;
    BaseIsSound(history, steps, i, id);
    hide Inv, Enabled, Apply, Spares, Records.Disjoint;
    if i == j {
      MergedWithNothing(base, ArtifactAt(history[i].disk.profiles, id).records);
    } else {
      var last := j - 1;
      HistoryMirrors(history, steps, i, last, id, header);
      HistoryKeepsInv(history, steps, last);
      StepMirrors(history[last], steps[last], id, header, base);
      assert history[last + 1] == Apply(history[last], steps[last]);
    }
  }

  lemma BaseIsSound(history: seq<State>, steps: seq<Step>, i: nat, id: Id)
    requires IsHistory(history, steps) && i < |history|
    ensures ArtifactAt(history[i].disk.estimates, id).records.Disjoint()
  {
    RecordsMatchTheirHeader(history, steps, i, Estimate, id);
  }

  /** A profile that was cut off any number of times, at whatever points, and was
      resumed leaves the estimate that one merge of its final records into the
      estimate before it gives, so the one an uninterrupted profile leaves. */
  lemma ResumedProfileMergesOnce(history: seq<State>, steps: seq<Step>, i: nat, j: nat, id: Id, header: Header)
    requires IsSpared(history, steps, i, j, id, header) && j < |steps|
    requires steps[j] == SaveMirror && history[j].mode.run.id == id
    ensures ArtifactAt(history[j + 1].disk.estimates, id).records
            == Merged(ArtifactAt(history[i].disk.estimates, id).records,
                      ArtifactAt(history[j + 1].disk.profiles, id).records)
  {
    HistoryMirrors(history, steps, i, j, id, header);
    HistoryKeepsInv(history, steps, j);
    hide Inv, Mirrors, Merged, Records.Disjoint;
    SaveMirrorMirrors(history[j], id, header, ArtifactAt(history[i].disk.estimates, id).records);
  }
}
