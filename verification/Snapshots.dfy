/**
  * Snapshots on a file system that can crash: atomic file replacement, the manifest, garbage collection and
  * recovery, over every run and every crash point. Renames are atomic and directory changes persist in order.
  */
module Snapshots {

  datatype Name = ManifestFile | IndexFile(generation: nat) | ManifestTemp | IndexTemp(generation: nat)

  /** What a file holds; a crash tears whatever was not synced. */
  datatype Data =
    | Torn
    | IndexData(content: nat, crc: nat)
    | ManifestData(generation: nat, indexCrc: nat)

  datatype File = File(data: Data, synced: bool)

  type Dir = map<Name, nat>

  /** The directory after some of its changes, and how many manifests had been put in place by then. */
  datatype View = View(dir: Dir, published: nat)

  datatype Snapshot = Snapshot(content: nat, crc: nat)

  datatype Stage = Created | Written | Synced
  datatype Job = SaveIndex(snapshot: Snapshot) | SaveManifest(snapshot: Snapshot)

  /** What the saving process is doing. */
  datatype Pc = Idle | InTemp(job: Job, stage: Stage) | Renamed(job: Job) | IndexSaved(snapshot: Snapshot)

  /**
    * `views` runs from the directory that is certainly on disk to the one the process sees; a crash leaves one of
    * them. `log` lists the snapshots whose manifest was put in place, `confirmed` how many of them were also
    * reported durable.
    */
  datatype State = State(
    files: map<nat, File>,
    nextFile: nat,
    views: seq<View>,
    log: seq<Snapshot>,
    confirmed: nat,
    pc: Pc)

  datatype Action =
    | StartSave(snapshot: Snapshot) | StartManifest | Write | Sync | Rename | SyncDirectory | Abort(removeTemp: bool)
    | Collect(name: Name) | Persist | Crash(view: nat)

  function Init(): State {
    State(map[], 0, [View(map[], 0)], [], 0, Idle)
  }

  function Visible(s: State): View
    requires |s.views| > 0
  {
    s.views[|s.views| - 1]
  }

  predicate IsTemp(name: Name) {
    name.ManifestTemp? || name.IndexTemp?
  }

  // ----- reading -----

  /** The data behind a name. */
  function Read(files: map<nat, File>, dir: Dir, name: Name): Data {
    if name in dir && dir[name] in files then files[dir[name]].data else Torn
  }

  /**
    * `load_snapshot`: the manifest, the index file it names, the checksum comparison, and then the index reader,
    * which accepts the contents that are `readable`.
    */
  function Recover(files: map<nat, File>, dir: Dir, readable: nat -> bool): Recovery {
    if ManifestFile !in dir then NothingSaved
    else
      match Read(files, dir, ManifestFile)
      case ManifestData(generation, crc) =>
        (match Read(files, dir, IndexFile(generation))
         case IndexData(content, indexCrc) => if indexCrc == crc then Opened(generation, content, readable) else Corrupt
         case _ => Corrupt)
      case _ => Corrupt
  }

  /** `Corrupt` is damage on the way to the index file; `Unreadable` is an intact file that the index reader refuses. */
  datatype Recovery = NothingSaved | Loaded(generation: nat, content: nat) | Unreadable(generation: nat) | Corrupt

  function Opened(generation: nat, content: nat, readable: nat -> bool): Recovery {
    if readable(content) then Loaded(generation, content) else Unreadable(generation)
  }

  /** The generation `save_snapshot` will write, from the manifest it sees; a damaged manifest stops it. */
  function NextGeneration(s: State): nat
    requires |s.views| > 0
  {
    if ManifestFile !in Visible(s).dir then 1
    else
      match Read(s.files, Visible(s).dir, ManifestFile)
      case ManifestData(generation, _) => generation + 1
      case _ => 0
  }

  // ----- steps -----

  function TempOf(s: State, job: Job): Name
    requires |s.views| > 0
  {
    if job.SaveIndex? then IndexTemp(NextGeneration(s)) else ManifestTemp
  }

  function TargetOf(s: State, job: Job): Name
    requires |s.views| > 0
  {
    if job.SaveIndex? then IndexFile(NextGeneration(s)) else ManifestFile
  }

  function DataOf(s: State, job: Job): Data
    requires |s.views| > 0
  {
    if job.SaveIndex? then IndexData(job.snapshot.content, job.snapshot.crc)
    else ManifestData(NextGeneration(s), job.snapshot.crc)
  }

  function Changed(s: State, dir: Dir): State
    requires |s.views| > 0
  {
    s.(views := s.views + [View(dir, Visible(s).published)])
  }

  /** Creates a temporary file, or truncates the one a crash left behind. */
  function Create(s: State, name: Name): State
    requires |s.views| > 0
  {
    var dir := Visible(s).dir;
    if name in dir then s.(files := s.files[dir[name] := File(Torn, false)])
    else Changed(s.(files := s.files[s.nextFile := File(Torn, false)], nextFile := s.nextFile + 1), dir[name := s.nextFile])
  }

  function Moved(dir: Dir, from: Name, to: Name): Dir
    requires from in dir
  {
    (dir - {from})[to := dir[from]]
  }

  /** `rename_replace`: the target now names the temporary file; a manifest in place is a snapshot published. */
  function DoRename(s: State, job: Job): State
    requires |s.views| > 0 && TempOf(s, job) in Visible(s).dir
  {
    var dir := Visible(s).dir;
    var moved := Moved(dir, TempOf(s, job), TargetOf(s, job));
    if job.SaveIndex? then Changed(s, moved).(pc := Renamed(job))
    else s.(views := s.views + [View(moved, |s.log| + 1)], log := s.log + [job.snapshot], pc := Renamed(job))
  }

  /** Index files other than the manifest's, and temporary files. */
  predicate Doomed(s: State, name: Name)
    requires |s.views| > 0
  {
    IsTemp(name) || (name.IndexFile? && name.generation + 1 != NextGeneration(s))
  }

  predicate InTempAt(s: State, stage: Stage) {
    s.pc.InTemp? && s.pc.stage == stage && |s.views| > 0 && TempOf(s, s.pc.job) in Visible(s).dir
    && Visible(s).dir[TempOf(s, s.pc.job)] in s.files
  }

  predicate Enabled(s: State, a: Action) {
    |s.views| > 0 &&
    match a
    case StartSave(_) => s.pc.Idle? && NextGeneration(s) > 0
    case StartManifest => s.pc.IndexSaved?
    case Write => InTempAt(s, Created)
    case Sync => InTempAt(s, Written)
    case Rename => InTempAt(s, Synced)
    case SyncDirectory => s.pc.Renamed?
    case Abort(_) => !s.pc.Idle?
    case Collect(name) => s.pc.Idle? && ManifestFile in Visible(s).dir && name in Visible(s).dir && Doomed(s, name)
    case Persist => |s.views| > 1
    case Crash(i) => i < |s.views|
  }

  function TempFile(s: State): nat
    requires s.pc.InTemp? && InTempAt(s, s.pc.stage)
  {
    Visible(s).dir[TempOf(s, s.pc.job)]
  }

  function AfterSync(job: Job): Pc {
    if job.SaveIndex? then IndexSaved(job.snapshot) else Idle
  }

  function DoAbort(s: State, removeTemp: bool): State
    requires |s.views| > 0 && !s.pc.Idle?
  {
    if removeTemp && s.pc.InTemp? then Changed(s, Visible(s).dir - {TempOf(s, s.pc.job)}).(pc := Idle) else s.(pc := Idle)
  }

  /** Everything not synced is torn; the directory is one of the views, and the snapshots after it never happened. */
  function DoCrash(s: State, i: nat): State
    requires i < |s.views| && s.views[i].published <= |s.log|
  {
    State(map f | f in s.files :: if s.files[f].synced then s.files[f] else File(Torn, false), s.nextFile,
          [s.views[i]], s.log[..s.views[i].published], s.views[i].published, Idle)
  }

  function Do(s: State, a: Action): State
    requires Enabled(s, a) && (a.Crash? ==> s.views[a.view].published <= |s.log|)
  {
    match a
    case StartSave(snapshot) => Create(s, TempOf(s, SaveIndex(snapshot))).(pc := InTemp(SaveIndex(snapshot), Created))
    case StartManifest => Create(s, ManifestTemp).(pc := InTemp(SaveManifest(s.pc.snapshot), Created))
    case Write => s.(files := s.files[TempFile(s) := File(DataOf(s, s.pc.job), false)], pc := InTemp(s.pc.job, Written))
    case Sync => s.(files := s.files[TempFile(s) := s.files[TempFile(s)].(synced := true)], pc := InTemp(s.pc.job, Synced))
    case Rename => DoRename(s, s.pc.job)
    case SyncDirectory => s.(views := [Visible(s)], confirmed := |s.log|, pc := AfterSync(s.pc.job))
    case Abort(removeTemp) => DoAbort(s, removeTemp)
    case Collect(name) => Changed(s, Visible(s).dir - {name})
    case Persist => s.(views := s.views[1..])
    case Crash(i) => DoCrash(s, i)
  }

  // ----- the invariant -----

  predicate Holds(files: map<nat, File>, dir: Dir, name: Name, data: Data) {
    name in dir && dir[name] in files && files[dir[name]] == File(data, true)
  }

  /** A view's manifest is whole, on disk, and names an index file that is too. */
  predicate Sound(files: map<nat, File>, log: seq<Snapshot>, v: View) {
    && v.published <= |log|
    && (v.published == 0 ==> ManifestFile !in v.dir)
    && (v.published > 0 ==>
          var last := log[v.published - 1];
          && Holds(files, v.dir, ManifestFile, ManifestData(v.published, last.crc))
          && Holds(files, v.dir, IndexFile(v.published), IndexData(last.content, last.crc)))
  }

  ghost predicate Injective(dir: Dir) {
    forall a <- dir, b <- dir :: a != b ==> dir[a] != dir[b]
  }

  /** Files under final names in any view are not the visible temporary files, so writing those is harmless. */
  ghost predicate TempsApart(s: State)
    requires |s.views| > 0
  {
    forall i: nat, a: Name, t: Name | i < |s.views| && a in s.views[i].dir && !IsTemp(a) && t in Visible(s).dir && IsTemp(t) ::
      s.views[i].dir[a] != Visible(s).dir[t]
  }

  ghost predicate Views(s: State) {
    && |s.views| > 0
    && (forall i: nat | i < |s.views| :: Sound(s.files, s.log, s.views[i]))
    && (forall i: nat | i < |s.views| :: Injective(s.views[i].dir))
    && (forall i: nat, a: Name | i < |s.views| && a in s.views[i].dir :: s.views[i].dir[a] < s.nextFile)
    && (forall i: nat, j: nat | i < j < |s.views| :: s.views[i].published <= s.views[j].published)
    && Visible(s).published == |s.log| && s.confirmed <= s.views[0].published
    && TempsApart(s)
  }

  /** Where the process is: its temporary file holds what it should, or its index file is in place. */
  ghost predicate Progress(s: State)
    requires |s.views| > 0
  {
    match s.pc
    case Idle => true
    case InTemp(job, stage) =>
      && (job.SaveManifest? ==> IndexInPlace(s, job.snapshot))
      && (stage.Written? ==> Read(s.files, Visible(s).dir, TempOf(s, job)) == DataOf(s, job))
      && (stage.Synced? ==> Holds(s.files, Visible(s).dir, TempOf(s, job), DataOf(s, job)))
    case Renamed(job) => job.SaveIndex? ==> IndexInPlace(s, job.snapshot)
    case IndexSaved(snapshot) => IndexInPlace(s, snapshot)
  }

  predicate IndexInPlace(s: State, snapshot: Snapshot)
    requires |s.views| > 0
  {
    Holds(s.files, Visible(s).dir, IndexFile(|s.log| + 1), IndexData(snapshot.content, snapshot.crc))
  }

  ghost predicate Inv(s: State) {
    Views(s) && Progress(s)
  }

  lemma InitInv()
    ensures Inv(Init())
  {
  }

  /** The process always numbers the next snapshot right after the last one published. */
  lemma GenerationIsNext(s: State)
    requires Views(s)
    ensures NextGeneration(s) == |s.log| + 1
  {
    assert Sound(s.files, s.log, Visible(s));
  }

  // ----- what the building blocks keep -----

  /** A file under no final name in any view. */
  ghost predicate Unreferenced(s: State, f: nat) {
    forall i: nat, a: Name | i < |s.views| && a in s.views[i].dir && !IsTemp(a) :: s.views[i].dir[a] != f
  }

  lemma VisibleTempUnreferenced(s: State, t: Name)
    requires Views(s) && t in Visible(s).dir && IsTemp(t)
    ensures Unreferenced(s, Visible(s).dir[t])
  {
  }

  lemma SoundWithFile(s: State, f: nat, file: File, i: nat)
    requires Views(s) && Unreferenced(s, f) && i < |s.views|
    ensures Sound(s.files[f := file], s.log, s.views[i])
  {
    var v := s.views[i];
    assert Sound(s.files, s.log, v);
    assert !IsTemp(ManifestFile) && !IsTemp(IndexFile(v.published));
  }

  /** Writing a file no final name refers to changes nothing a reader could recover. */
  lemma FileKeepsViews(s: State, f: nat, file: File, pc: Pc)
    requires Views(s) && Unreferenced(s, f)
    ensures Views(s.(files := s.files[f := file], pc := pc))
  {
    hide Sound, Injective;
    forall i: nat | i < |s.views|
      ensures Sound(s.files[f := file], s.log, s.views[i])
    {
      SoundWithFile(s, f, file, i);
    }
  }

  lemma PcKeepsViews(s: State, pc: Pc)
    requires Views(s)
    ensures Views(s.(pc := pc))
  {
    hide Sound, Injective;
  }

  lemma SoundWithLog(files: map<nat, File>, log: seq<Snapshot>, longer: seq<Snapshot>, v: View)
    requires Sound(files, log, v) && log <= longer
    ensures Sound(files, longer, v)
  {
  }

  lemma PublishedBelow(s: State, i: nat)
    requires Views(s) && i < |s.views|
    ensures s.views[i].published <= |s.log|
  {
    assert Sound(s.files, s.log, s.views[i]);
  }

  /** A new directory whose temporary files are all old ones. */
  lemma DirKeepsViews(s: State, dir: Dir, log: seq<Snapshot>, pc: Pc)
    requires Views(s) && s.log <= log
    requires Sound(s.files, log, View(dir, |log|)) && Injective(dir)
    requires forall a <- dir :: dir[a] < s.nextFile
    requires forall t <- dir :: IsTemp(t) ==> t in Visible(s).dir && dir[t] == Visible(s).dir[t]
    ensures Views(s.(views := s.views + [View(dir, |log|)], log := log, pc := pc))
  {
    hide Injective, Sound;
    var n := s.(views := s.views + [View(dir, |log|)], log := log, pc := pc);
    forall i: nat | i < |n.views|
      ensures Sound(n.files, n.log, n.views[i]) && n.views[i].published <= |log|
    {
      if i < |s.views| {
        SoundWithLog(s.files, s.log, log, s.views[i]);
        PublishedBelow(s, i);
      }
    }
    forall i: nat, a: Name, t: Name | i < |n.views| && a in n.views[i].dir && !IsTemp(a) && t in dir && IsTemp(t)
      ensures n.views[i].dir[a] != dir[t]
    {
      if i == |s.views| {
        Different(dir, a, t);
      } else {
        assert s.views[i].dir[a] != Visible(s).dir[t];
      }
    }
  }

  lemma Different(dir: Dir, a: Name, b: Name)
    requires Injective(dir) && a in dir && b in dir
    ensures a != b ==> dir[a] != dir[b]
  {
  }

  lemma NewNameInjective(dir: Dir, t: Name, f: nat)
    requires Injective(dir) && t !in dir && forall a <- dir :: dir[a] < f
    ensures Injective(dir[t := f])
  {
  }

  /** A new, empty file under a temporary name. */
  lemma NewTempKeepsViews(s: State, t: Name, pc: Pc)
    requires Views(s) && IsTemp(t) && t !in Visible(s).dir
    ensures Views(Create(s, t).(pc := pc))
  {
    hide Sound, Injective;
    var n := Create(s, t).(pc := pc);
    var f, dir := s.nextFile, Visible(s).dir;
    forall i: nat | i < |s.views|
      ensures Sound(n.files, n.log, s.views[i])
    {
      SoundWithFile(s, f, File(Torn, false), i);
    }
    SoundWithTemp(n.files, s.log, Visible(s), t, f);
    NewNameInjective(dir, t, f);
    forall i: nat, a: Name, u: Name | i < |n.views| && a in n.views[i].dir && !IsTemp(a) && u in dir[t := f] && IsTemp(u)
      ensures n.views[i].dir[a] != dir[t := f][u]
    {
      if i < |s.views| && u != t {
        assert s.views[i].dir[a] != Visible(s).dir[u];
      }
    }
  }

  lemma SoundWithTemp(files: map<nat, File>, log: seq<Snapshot>, v: View, t: Name, f: nat)
    requires Sound(files, log, v) && IsTemp(t)
    ensures Sound(files, log, View(v.dir[t := f], v.published))
  {
  }

  lemma CreateKeepsViews(s: State, t: Name, pc: Pc)
    requires Views(s) && IsTemp(t)
    ensures Views(Create(s, t).(pc := pc))
    ensures Visible(Create(s, t)).published == |s.log| && Create(s, t).log == s.log
  {
    hide Views;
    VisibleIsLast(s);
    if t in Visible(s).dir {
      VisibleTempUnreferenced(s, t);
      FileKeepsViews(s, Visible(s).dir[t], File(Torn, false), pc);
    } else {
      NewTempKeepsViews(s, t, pc);
    }
  }

  lemma VisibleIsLast(s: State)
    requires Views(s)
    ensures |s.views| > 0 && Visible(s).published == |s.log| && Sound(s.files, s.log, Visible(s)) && Injective(Visible(s).dir)
  {
  }

  /** What is in place stays in place when a temporary file appears. */
  lemma CreateKeepsIndex(s: State, t: Name, pc: Pc, snapshot: Snapshot)
    requires Views(s) && IsTemp(t) && IndexInPlace(s, snapshot)
    ensures |Create(s, t).views| > 0 && IndexInPlace(Create(s, t).(pc := pc), snapshot)
  {
    hide Views;
    VisibleIsLast(s);
    if t in Visible(s).dir {
      VisibleTempUnreferenced(s, t);
      NotReferenced(s, Visible(s).dir[t], IndexFile(|s.log| + 1));
    } else {
      BelowNextFile(s, IndexFile(|s.log| + 1));
    }
  }

  lemma NotReferenced(s: State, f: nat, a: Name)
    requires |s.views| > 0 && Unreferenced(s, f) && a in Visible(s).dir && !IsTemp(a)
    ensures Visible(s).dir[a] != f
  {
    var i := |s.views| - 1;
    assert s.views[i].dir[a] != f;
  }

  lemma BelowNextFile(s: State, a: Name)
    requires Views(s) && a in Visible(s).dir
    ensures Visible(s).dir[a] < s.nextFile
  {
  }

  // ----- every step keeps the invariant -----

  lemma StartKeepsInv(s: State, a: Action)
    requires Inv(s) && Enabled(s, a) && (a.StartSave? || a.StartManifest?)
    ensures Inv(Do(s, a))
  {
    hide Views, Create;
    GenerationIsNext(s);
    var n := Do(s, a);
    if a.StartSave? {
      CreateKeepsViews(s, IndexTemp(|s.log| + 1), n.pc);
    } else {
      CreateKeepsViews(s, ManifestTemp, n.pc);
      CreateKeepsIndex(s, ManifestTemp, n.pc, s.pc.snapshot);
    }
    VisibleIsLast(n);
  }

  /** Writing or syncing the temporary file leaves a finished index file alone. */
  lemma TempWriteKeepsIndex(s: State, t: Name, file: File, pc: Pc, snapshot: Snapshot)
    requires Views(s) && t in Visible(s).dir && IsTemp(t) && IndexInPlace(s, snapshot)
    ensures IndexInPlace(s.(files := s.files[Visible(s).dir[t] := file], pc := pc), snapshot)
  {
    hide Views;
    VisibleIsLast(s);
    VisibleTempUnreferenced(s, t);
    NotReferenced(s, Visible(s).dir[t], IndexFile(|s.log| + 1));
  }

  lemma WriteKeepsInv(s: State, a: Action)
    requires Inv(s) && Enabled(s, a) && (a.Write? || a.Sync?)
    ensures Inv(Do(s, a))
  {
    hide Views, IndexInPlace;
    var job, n := s.pc.job, Do(s, a);
    var t, f := TempOf(s, job), TempFile(s);
    GenerationIsNext(s);
    VisibleTempUnreferenced(s, t);
    FileKeepsViews(s, f, n.files[f], n.pc);
    GenerationIsNext(n);
    if job.SaveManifest? {
      TempWriteKeepsIndex(s, t, n.files[f], n.pc, job.snapshot);
    }
    assert n.files == s.files[f := n.files[f]];
  }

  lemma RenameIndexKeepsInv(s: State)
    requires Inv(s) && Enabled(s, Rename) && s.pc.job.SaveIndex?
    ensures Inv(Do(s, Rename))
  {
    hide Views;
    GenerationIsNext(s);
    VisibleIsLast(s);
    var dir, g := Visible(s).dir, |s.log| + 1;
    var moved := Moved(dir, IndexTemp(g), IndexFile(g));
    assert Sound(s.files, s.log, View(moved, |s.log|));
    MovedIsInjective(dir, IndexTemp(g), IndexFile(g));
    RenamedFilesKnown(s, IndexTemp(g), IndexFile(g));
    DirKeepsViews(s, moved, s.log, Renamed(s.pc.job));
  }

  lemma RenameManifestKeepsInv(s: State)
    requires Inv(s) && Enabled(s, Rename) && s.pc.job.SaveManifest?
    ensures Inv(Do(s, Rename))
  {
    hide Views;
    GenerationIsNext(s);
    VisibleIsLast(s);
    var dir, log := Visible(s).dir, s.log + [s.pc.job.snapshot];
    var moved := Moved(dir, ManifestTemp, ManifestFile);
    assert Sound(s.files, log, View(moved, |log|));
    MovedIsInjective(dir, ManifestTemp, ManifestFile);
    RenamedFilesKnown(s, ManifestTemp, ManifestFile);
    DirKeepsViews(s, moved, log, Renamed(s.pc.job));
  }

  lemma MovedIsInjective(dir: Dir, t: Name, a: Name)
    requires Injective(dir) && t in dir && a != t
    ensures Injective(Moved(dir, t, a))
  {
    var moved := Moved(dir, t, a);
    forall b <- moved, c <- moved
      ensures b != c ==> moved[b] != moved[c]
    {
      if b != a && b != t { Different(dir, b, t); }
      if c != a && c != t { Different(dir, c, t); }
      if b != c && b != t && c != t && b in dir && c in dir { Different(dir, b, c); }
    }
  }

  lemma RenamedFilesKnown(s: State, t: Name, a: Name)
    requires Views(s) && t in Visible(s).dir && !IsTemp(a)
    ensures forall b <- Moved(Visible(s).dir, t, a) :: Moved(Visible(s).dir, t, a)[b] < s.nextFile
  {
    hide Sound, Injective;
  }

  lemma RemoveKeepsViews(s: State, name: Name, pc: Pc)
    requires Views(s) && name != ManifestFile && name != IndexFile(|s.log|)
    ensures Views(Changed(s, Visible(s).dir - {name}).(pc := pc))
  {
    hide Views;
    VisibleIsLast(s);
    var dir := Visible(s).dir - {name};
    assert Injective(dir);
    forall a <- dir
      ensures dir[a] < s.nextFile
    {
      BelowNextFile(s, a);
    }
    assert Sound(s.files, s.log, View(dir, |s.log|));
    DirKeepsViews(s, dir, s.log, pc);
  }

  lemma AbortKeepsInv(s: State, removeTemp: bool)
    requires Inv(s) && Enabled(s, Abort(removeTemp))
    ensures Inv(DoAbort(s, removeTemp))
  {
    hide Views;
    PcKeepsViews(s, Idle);
    if removeTemp && s.pc.InTemp? {
      RemoveKeepsViews(s, TempOf(s, s.pc.job), Idle);
    }
  }

  lemma CollectKeepsInv(s: State, name: Name)
    requires Inv(s) && Enabled(s, Collect(name))
    ensures Inv(Do(s, Collect(name)))
  {
    hide Views;
    GenerationIsNext(s);
    RemoveKeepsViews(s, name, Idle);
  }

  lemma SyncDirectoryKeepsInv(s: State)
    requires Inv(s) && Enabled(s, SyncDirectory)
    ensures Inv(Do(s, SyncDirectory))
  {
  }

  lemma PersistKeepsInv(s: State)
    requires Inv(s) && Enabled(s, Persist)
    ensures Inv(Do(s, Persist))
  {
    hide Sound, Injective;
  }

  /** The files of a view that a reader would follow are synced, so a crash does not touch them. */
  lemma CrashKeepsInv(s: State, i: nat)
    requires Inv(s) && Enabled(s, Crash(i))
    ensures s.views[i].published <= |s.log| && Inv(DoCrash(s, i))
  {
    assert Sound(s.files, s.log, s.views[i]);
    var n := DoCrash(s, i);
    assert Sound(n.files, n.log, s.views[i]);
    assert Injective(s.views[i].dir);
  }

  lemma StepKeepsInv(s: State, a: Action)
    requires Inv(s) && Enabled(s, a)
    ensures (a.Crash? ==> s.views[a.view].published <= |s.log|) && Inv(Do(s, a))
  {
    hide Inv;
    match a
    case StartSave(_) => StartKeepsInv(s, a);
    case StartManifest => StartKeepsInv(s, a);
    case Write => WriteKeepsInv(s, a);
    case Sync => WriteKeepsInv(s, a);
    case Rename => if s.pc.job.SaveIndex? { RenameIndexKeepsInv(s); } else { RenameManifestKeepsInv(s); }
    case SyncDirectory => SyncDirectoryKeepsInv(s);
    case Abort(removeTemp) => AbortKeepsInv(s, removeTemp);
    case Collect(name) => CollectKeepsInv(s, name);
    case Persist => PersistKeepsInv(s);
    case Crash(i) => CrashKeepsInv(s, i);
  }

  // ----- whole runs -----

  predicate Steps(s: State, a: Action, t: State) {
    Enabled(s, a) && (a.Crash? ==> s.views[a.view].published <= |s.log|) && t == Do(s, a)
  }

  /** `run` lists the steps from the last one back to the first. */
  ghost predicate Reaches(run: seq<Action>, s: State) {
    if run == [] then s == Init()
    else exists before: State :: Reaches(run[1..], before) && Steps(before, run[0], s)
  }

  lemma {:induction false} RunKeepsInv(run: seq<Action>, s: State)
    requires Reaches(run, s)
    ensures Inv(s)
  {
    hide Inv, Steps;
    if run == [] {
      InitInv();
    } else {
      var before :| Reaches(run[1..], before) && Steps(before, run[0], s);
      RunKeepsInv(run[1..], before);
      OneStep(before, run[0], s);
    }
  }

  lemma OneStep(s: State, a: Action, t: State)
    requires Inv(s) && Steps(s, a, t)
    ensures Inv(t)
  {
    hide Inv, Do;
    StepKeepsInv(s, a);
  }

  lemma SoundRecovers(files: map<nat, File>, log: seq<Snapshot>, v: View, readable: nat -> bool)
    requires Sound(files, log, v)
    ensures Recover(files, v.dir, readable)
         == if v.published == 0 then NothingSaved else Opened(v.published, log[v.published - 1].content, readable)
  {
  }

  /**
    * After any run, and a crash at any point of it, recovery finds nothing damaged and comes to a snapshot that was
    * published: the last one reported durable or a later one whose manifest had been put in place. It loads that
    * snapshot if and only if the index reader accepts what was saved in it.
    */
  lemma CrashRecovers(run: seq<Action>, s: State, i: nat, readable: nat -> bool)
    requires Reaches(run, s) && i < |s.views|
    ensures s.confirmed <= s.views[i].published <= |s.log|
    ensures var after := DoCrash(s, i);
            && Inv(after)
            && Recover(after.files, Visible(after).dir, readable)
               == if s.views[i].published == 0 then NothingSaved
                  else Opened(s.views[i].published, s.log[s.views[i].published - 1].content, readable)
  {
    hide Reaches, Sound, Recover, Opened, Injective, TempsApart, Progress;
    RunKeepsInv(run, s);
    ConfirmedInView(s, i);
    CrashKeepsInv(s, i);
    var after := DoCrash(s, i);
    VisibleIsLast(after);
    SoundRecovers(after.files, after.log, Visible(after), readable);
  }

  lemma ConfirmedInView(s: State, i: nat)
    requires Inv(s) && i < |s.views|
    ensures s.confirmed <= s.views[i].published <= |s.log|
  {
    hide Sound, Injective, Progress;
    if i > 0 {
      assert s.views[0].published <= s.views[i].published;
    }
    if i < |s.views| - 1 {
      assert s.views[i].published <= s.views[|s.views| - 1].published;
    }
  }

  /** Recovery opens an index file only if the manifest names it with the checksum the file has; otherwise it reports damage. */
  lemma OpensWhatManifestNames(files: map<nat, File>, dir: Dir, readable: nat -> bool)
    ensures var r := Recover(files, dir, readable);
            && (r.NothingSaved? <==> ManifestFile !in dir)
            && (forall g: nat, c: nat :: r == Loaded(g, c) <==> readable(c) && Names(files, dir, g, c))
            && (forall g: nat :: r == Unreadable(g) <==> exists c: nat :: !readable(c) && Names(files, dir, g, c))
  {
  }

  /** The manifest names generation `g`, and that index file holds `c` with the checksum the manifest records. */
  ghost predicate Names(files: map<nat, File>, dir: Dir, g: nat, c: nat) {
    && ManifestFile in dir
    && exists crc: nat ::
         Read(files, dir, ManifestFile) == ManifestData(g, crc) && Read(files, dir, IndexFile(g)) == IndexData(c, crc)
  }

  /** Without a crash, a load opens the newest published snapshot, whatever garbage was collected. */
  lemma LoadSeesNewest(run: seq<Action>, s: State, readable: nat -> bool)
    requires Reaches(run, s)
    ensures |s.views| > 0
    ensures Recover(s.files, Visible(s).dir, readable)
         == if s.log == [] then NothingSaved else Opened(|s.log|, s.log[|s.log| - 1].content, readable)
  {
    hide Reaches, Sound, Recover, Opened, Injective, TempsApart, Progress;
    RunKeepsInv(run, s);
    VisibleIsLast(s);
    SoundRecovers(s.files, s.log, Visible(s), readable);
  }

  /** A step never takes back what was confirmed. */
  lemma ConfirmedStays(s: State, a: Action)
    requires Inv(s) && Enabled(s, a) && (a.Crash? ==> s.views[a.view].published <= |s.log|)
    ensures s.confirmed <= |s.log| && s.confirmed <= Do(s, a).confirmed <= |Do(s, a).log|
    ensures Do(s, a).log[..s.confirmed] == s.log[..s.confirmed]
  {
    hide Sound, Injective;
    if a.Crash? {
      ConfirmedInView(s, a.view);
    }
    StepKeepsInv(s, a);
    ConfirmedInView(s, |s.views| - 1);
    ConfirmedInView(Do(s, a), |Do(s, a).views| - 1);
  }

  /** `run` lists the steps from `from` to `s`, from the last one back to the first. */
  ghost predicate Continues(from: State, run: seq<Action>, s: State) {
    if run == [] then s == from
    else exists before: State :: Continues(from, run[1..], before) && Steps(before, run[0], s)
  }

  lemma {:induction false} ConfirmedForever(from: State, run: seq<Action>, s: State)
    requires Inv(from) && Continues(from, run, s)
    ensures Inv(s) && from.confirmed <= |from.log| && from.confirmed <= s.confirmed <= |s.log|
    ensures s.log[..from.confirmed] == from.log[..from.confirmed]
  {
    hide Inv, Steps, Do;
    if run == [] {
      LastConfirmed(s);
    } else {
      var before :| Continues(from, run[1..], before) && Steps(before, run[0], s);
      ConfirmedForever(from, run[1..], before);
      OneStep(before, run[0], s);
      OneStepConfirmed(before, run[0], s);
      assert s.log[..from.confirmed] == s.log[..before.confirmed][..from.confirmed];
      assert before.log[..from.confirmed] == before.log[..before.confirmed][..from.confirmed];
    }
  }

  lemma LastConfirmed(s: State)
    requires Inv(s)
    ensures s.confirmed <= |s.log|
  {
    VisibleIsLast(s);
    ConfirmedInView(s, |s.views| - 1);
  }

  lemma OneStepConfirmed(s: State, a: Action, t: State)
    requires Inv(s) && Steps(s, a, t)
    ensures s.confirmed <= |s.log| && s.confirmed <= t.confirmed <= |t.log| && t.log[..s.confirmed] == s.log[..s.confirmed]
  {
    hide Inv, Do;
    ConfirmedStays(s, a);
  }

  /**
    * A snapshot reported as saved is never lost: whatever happens afterwards, crashes included, it stays in the log,
    * and every directory a further crash can leave is at least as new.
    */
  lemma ReportedIsDurable(run: seq<Action>, s: State, later: seq<Action>, t: State, i: nat)
    requires Reaches(run, s) && s.pc.Renamed? && s.pc.job.SaveManifest?
    requires Enabled(s, SyncDirectory) ==> Continues(Do(s, SyncDirectory), later, t)
    requires i < |t.views|
    ensures Enabled(s, SyncDirectory)
    ensures var after := Do(s, SyncDirectory);
            && after.confirmed == |after.log| && after.pc.Idle?
            && after.log <= t.log && |after.log| <= t.views[i].published <= |t.log|
  {
    RunKeepsInv(run, s);
    VisibleIsLast(s);
    var after := Do(s, SyncDirectory);
    StepKeepsInv(s, SyncDirectory);
    ConfirmedForever(after, later, t);
    ConfirmedInView(t, i);
    assert after.log == after.log[..after.confirmed] == t.log[..after.confirmed];
  }

  // ----- garbage collection -----

  /** Between saves, exactly the names other than the manifest and the newest index file can be removed. */
  lemma CollectableIff(run: seq<Action>, s: State, name: Name)
    requires Reaches(run, s) && s.pc.Idle? && s.log != []
    ensures Enabled(s, Collect(name)) <==>
              |s.views| > 0 && name in Visible(s).dir && name != ManifestFile && name != IndexFile(|s.log|)
  {
    hide Reaches, Injective, TempsApart;
    RunKeepsInv(run, s);
    IdleCollects(s, name);
  }

  lemma IdleCollects(s: State, name: Name)
    requires Inv(s) && s.pc.Idle? && s.log != []
    ensures Enabled(s, Collect(name)) <==>
              |s.views| > 0 && name in Visible(s).dir && name != ManifestFile && name != IndexFile(|s.log|)
    ensures |s.views| > 0 && ManifestFile in Visible(s).dir && IndexFile(|s.log|) in Visible(s).dir
  {
    hide Injective, TempsApart;
    GenerationIsNext(s);
    VisibleIsLast(s);
  }

  /** Only removals lead from `s` to `t`. */
  ghost predicate Collects(s: State, run: seq<Action>, t: State) {
    Continues(s, run, t) && forall a <- run :: a.Collect?
  }

  lemma CollectOne(s: State, run: seq<Action>, t: State, name: Name)
    requires Collects(s, run, t) && Enabled(t, Collect(name))
    ensures Collects(s, [Collect(name)] + run, Do(t, Collect(name)))
  {
    hide Do, Enabled;
    var longer := [Collect(name)] + run;
    assert longer[1..] == run && Steps(t, longer[0], Do(t, Collect(name)));
    forall a <- longer
      ensures a.Collect?
    {
      if a !in run { assert a == longer[0]; }
    }
  }

  lemma {:induction false} CleanFrom(s: State, run: seq<Action>, t: State) returns (longer: seq<Action>, end: State)
    requires Collects(s, run, t) && Inv(t) && t.pc.Idle? && t.log == s.log && t.log != []
    ensures Collects(s, longer, end) && Inv(end) && end.pc.Idle? && end.log == s.log && |end.views| > 0
    ensures Visible(end).dir.Keys == {ManifestFile, IndexFile(|s.log|)}
    decreases |Visible(t).dir.Keys|
  {
    hide Inv, Collects, Enabled;
    IdleCollects(t, ManifestFile);
    var rest := Visible(t).dir.Keys - {ManifestFile, IndexFile(|s.log|)};
    if name :| name in rest {
      IdleCollects(t, name);
      StepKeepsInv(t, Collect(name));
      CollectOne(s, run, t, name);
      Fewer(Visible(t).dir, name);
      longer, end := CleanFrom(s, [Collect(name)] + run, Do(t, Collect(name)));
    } else {
      longer, end := run, t;
      forall name <- Visible(t).dir.Keys
        ensures name == ManifestFile || name == IndexFile(|s.log|)
      {
        assert name !in rest;
      }
      assert Visible(t).dir.Keys == {ManifestFile, IndexFile(|s.log|)};
    }
  }

  lemma Fewer(dir: Dir, name: Name)
    requires name in dir
    ensures (dir - {name}).Keys == dir.Keys - {name} && |(dir - {name}).Keys| < |dir.Keys|
  {
    assert (dir - {name}).Keys == dir.Keys - {name};
    assert dir.Keys == (dir.Keys - {name}) + {name};
  }

  /** A collection between saves can always go on until the manifest and the index file it names are all there is. */
  lemma CollectionCanFinish(run: seq<Action>, s: State)
    requires Reaches(run, s) && s.pc.Idle? && s.log != []
    ensures exists longer, end ::
      Collects(s, longer, end) && |end.views| > 0 && Visible(end).dir.Keys == {ManifestFile, IndexFile(|s.log|)}
  {
    hide Inv, Reaches;
    RunKeepsInv(run, s);
    assert Collects(s, [], s);
    var longer, end := CleanFrom(s, [], s);
  }

  // ----- an undisturbed save -----

  lemma Extends(s: State, run: seq<Action>, t: State, a: Action)
    requires Continues(s, run, t) && Inv(t) && Enabled(t, a) && !a.Crash?
    ensures Continues(s, [a] + run, Do(t, a)) && Inv(Do(t, a))
  {
    hide Inv, Do, Enabled;
    StepKeepsInv(t, a);
    var longer := [a] + run;
    assert longer[1..] == run && Steps(t, longer[0], Do(t, a));
  }

  /** The steps that put a file in place, latest first. */
  function PutInPlace(): seq<Action> {
    [SyncDirectory, Rename, Sync, Write]
  }

  lemma FileCanBePut(s: State, run: seq<Action>, t: State, job: Job) returns (end: State)
    requires Continues(s, run, t) && Inv(t) && t.pc == InTemp(job, Created) && InTempAt(t, Created)
    ensures Continues(s, PutInPlace() + run, end) && Inv(end) && end.pc == AfterSync(job)
    ensures end.log == (if job.SaveIndex? then t.log else t.log + [job.snapshot]) && end.confirmed == |end.log|
    ensures |end.views| > 0
  {
    hide Inv, Continues, Moved;
    Extends(s, run, t, Write);
    var t1 := Do(t, Write);
    SameTemp(t, t1, job);
    Extends(s, [Write] + run, t1, Sync);
    var t2 := Do(t1, Sync);
    SameTemp(t1, t2, job);
    Extends(s, [Sync] + ([Write] + run), t2, Rename);
    var t3 := Do(t2, Rename);
    Extends(s, [Rename] + ([Sync] + ([Write] + run)), t3, SyncDirectory);
    end := Do(t3, SyncDirectory);
    assert [SyncDirectory] + ([Rename] + ([Sync] + ([Write] + run))) == PutInPlace() + run;
  }

  /** While a job's temporary file is written, its name stays the same. */
  lemma SameTemp(s: State, t: State, job: Job)
    requires Inv(s) && Inv(t) && |s.log| == |t.log| && |s.views| > 0 && |t.views| > 0
    ensures TempOf(s, job) == TempOf(t, job)
  {
    hide Views;
    GenerationFromInv(s);
    GenerationFromInv(t);
  }

  lemma GenerationFromInv(s: State)
    requires Inv(s)
    ensures |s.views| > 0 && NextGeneration(s) == |s.log| + 1
  {
    GenerationIsNext(s);
  }

  lemma CreatedThere(s: State, t: Name)
    requires |s.views| > 0
    ensures |Create(s, t).views| > 0 && t in Visible(Create(s, t)).dir && Visible(Create(s, t)).dir[t] in Create(s, t).files
    ensures Create(s, t).log == s.log
  {
  }

  /** Starting a save or a manifest creates the temporary file that is written next. */
  lemma StartCreates(s: State, a: Action, job: Job)
    requires Inv(s) && Enabled(s, a)
    requires (a.StartSave? && job == SaveIndex(a.snapshot)) || (a.StartManifest? && job == SaveManifest(s.pc.snapshot))
    ensures var t := Do(s, a); t.pc == InTemp(job, Created) && InTempAt(t, Created) && t.log == s.log
  {
    hide Inv, Create;
    GenerationFromInv(s);
    StepKeepsInv(s, a);
    var t := Do(s, a);
    CreatedThere(s, TempOf(s, job));
    SameTemp(s, t, job);
  }

  /**
    * From every reachable state between saves, a save that nothing disturbs publishes its snapshot as the next
    * generation and reports it durable: index file first, then the manifest that names it.
    */
  lemma SaveCanFinish(run: seq<Action>, s: State, snapshot: Snapshot, readable: nat -> bool) returns (end: State)
    requires Reaches(run, s) && s.pc.Idle?
    ensures Continues(s, PutInPlace() + ([StartManifest] + (PutInPlace() + ([StartSave(snapshot)] + []))), end)
    ensures end.pc.Idle? && end.log == s.log + [snapshot] && end.confirmed == |end.log| && |end.views| > 0
    ensures Recover(end.files, Visible(end).dir, readable) == Opened(|s.log| + 1, snapshot.content, readable)
  {
    hide Inv, Reaches, Do, PutInPlace, Recover, InTempAt, Opened;
    RunKeepsInv(run, s);
    GenerationFromInv(s);
    assert Continues(s, [], s);
    Extends(s, [], s, StartSave(snapshot));
    StartCreates(s, StartSave(snapshot), SaveIndex(snapshot));
    var t := FileCanBePut(s, [StartSave(snapshot)] + [], Do(s, StartSave(snapshot)), SaveIndex(snapshot));
    var so := PutInPlace() + ([StartSave(snapshot)] + []);
    Extends(s, so, t, StartManifest);
    StartCreates(t, StartManifest, SaveManifest(snapshot));
    end := FileCanBePut(s, [StartManifest] + so, Do(t, StartManifest), SaveManifest(snapshot));
    RecoversLast(end, readable);
  }

  lemma RecoversLast(s: State, readable: nat -> bool)
    requires Inv(s) && s.log != []
    ensures |s.views| > 0
    ensures Recover(s.files, Visible(s).dir, readable) == Opened(|s.log|, s.log[|s.log| - 1].content, readable)
  {
    hide Sound, Recover, Opened;
    VisibleIsLast(s);
    SoundRecovers(s.files, s.log, Visible(s), readable);
  }
}
