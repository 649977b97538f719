/**
 The library scan as a transition system over what survives a crash (the scan columns of
 library, the folder rows, the album rows) and what does not (the scanning process). One
 event is one transaction, or one step of the process between two of them.
 */
module ScanModel {
  import opened Options

  /** A folder is identified by a hash of its library and path, taken to be injective. */
  datatype FolderId = FolderId(lib: int, path: string)

  /** startedAt is 0 when no scan is in progress. */
  datatype Library = Library(isVirtual: bool, startedAt: int, full: bool, lastScanAt: int)

  datatype Folder = Folder(updatedAt: int, hash: string, missing: bool)

  datatype Album = Album(lib: int, folders: set<FolderId>, importedAt: int)

  /** One directory met by the walk; an unreadable one is entered but not passed on. */
  datatype Found = Found(path: string, hash: string, noFiles: bool, readable: bool)

  /** What the database knew about a folder when the job was created. */
  datatype Info = Info(updatedAt: int, hash: string)

  const UNKNOWN := Info(0, "")

  /** A folder on its way through the pipeline. */
  datatype Entry = Entry(id: FolderId, hash: string)

  datatype Job = Job(
    startedAt: int,
    full: bool,
    lastUpdates: map<FolderId, Info>,
    walk: Option<seq<Found>>,         // what the walk still has to visit
    known: set<FolderId>,             // past: the folders in lastUpdates at first
    entered: set<FolderId>,           // past: the folders the walk entered
    emitted: set<FolderId>)           // past: the folders the walk passed on
  {
    predicate Walked() {
      walk.Some? && walk.value == []
    }
  }

  datatype Stage =
    | Preparing(todo: set<int>)       // libraries not yet prepared
    | Scanning(unplanned: set<int>)   // libraries whose job is still to be created
    | Refreshing(unread: set<int>)    // libraries whose touched albums are still to be read

  datatype Process = Process(
    full: bool, selective: bool, libs: set<int>, jobs: map<int, Job>, queue: multiset<Entry>,
    stage: Stage, failed: bool)

  /** Facts about the past: when a folder or an album was last handled. */
  datatype History = History(
    imported: map<FolderId, int>,     // last persisted by a process in full mode
    touched: map<string, int>,        // last put or touched by phase 1
    offered: map<string, int>)        // last read by phase 3

  datatype State = State(
    clock: int,
    libs: map<int, Library>,
    folders: map<FolderId, Folder>,
    albums: map<string, Album>,
    process: Option<Process>,
    history: History)

  /** ScanBegin may fail, and so may reading the library back after it. */
  datatype BeginOutcome = NotBegun | NotReloaded | Begun

  datatype Event =
    | Begin(requested: bool, targets: Option<set<int>>)
    | PrepareLibrary(lib: int, outcome: BeginOutcome)
    | Prepared
    | CreateJob(lib: int, ok: bool, scope: set<FolderId>)
    | StartWalk(lib: int, found: seq<Found>)
    | Visit(lib: int)
    | Persist(entry: Entry, puts: map<string, set<FolderId>>, touches: set<string>, ok: bool)
    | Finalize(ok: bool)
    | ReadTouched(lib: int)
    | Refresh(album: string)
    | CollectGarbage(goneFolders: set<FolderId>, goneAlbums: set<string>)
    | ScanEnd
    | Crash

  function At<K(==)>(times: map<K, int>, key: K): int {
    if key in times then times[key] else 0
  }

  // ----- Deciding what to scan -----

  function Targeted(libs: map<int, Library>, targets: Option<set<int>>): set<int> {
    match targets
    case None => libs.Keys
    case Some(ids) => libs.Keys * ids
  }

  predicate Interrupted(libs: map<int, Library>, chosen: set<int>) {
    exists id :: id in chosen && id in libs && libs[id].full
  }

  /** A full scan is forced when one was interrupted in any of the libraries. */
  predicate FullMode(libs: map<int, Library>, chosen: set<int>, requested: bool) {
    requested || Interrupted(libs, chosen)
  }

  /** GetFolderUpdateInfo: the folders that are not missing, within the scope of a selective scan. */
  function KnownFolders(folders: map<FolderId, Folder>, lib: int, selective: bool, scope: set<FolderId>): map<FolderId, Info> {
    map id | id in folders && id.lib == lib && !folders[id].missing && (selective ==> id in scope) ::
      Info(folders[id].updatedAt, folders[id].hash)
  }

  function LastUpdate(job: Job, id: FolderId): Info {
    if id in job.lastUpdates then job.lastUpdates[id] else UNKNOWN
  }

  predicate Outdated(job: Job, info: Info, hash: string) {
    (job.full && info.updatedAt < job.startedAt) || info.hash != hash
  }

  /** The producer puts an outdated folder, unless it is new, without files, and the scan is quick. */
  predicate Puts(fullScan: bool, job: Job, info: Info, f: Found) {
    f.readable && Outdated(job, info, f.hash) && (fullScan || !(f.noFiles && info.updatedAt == 0))
  }

  // ----- Writes -----

  function Started(lib: Library, fullScan: bool, now: int): Library {
    lib.(startedAt := now, full := fullScan)
  }

  function Ended(lib: Library, now: int): Library {
    lib.(lastScanAt := now, full := false, startedAt := 0)
  }

  function Leftover(jobs: map<int, Job>): set<FolderId> {
    set lib, id | lib in jobs && id in jobs[lib].lastUpdates :: id
  }

  function MarkMissing(folders: map<FolderId, Folder>, ids: set<FolderId>, now: int): map<FolderId, Folder> {
    map id | id in folders :: if id in ids then folders[id].(missing := true, updatedAt := now) else folders[id]
  }

  predicate HasMissingFolder(album: Album, folders: map<FolderId, Folder>) {
    exists id :: id in album.folders && id in folders && folders[id].missing
  }

  function TouchByMissingFolder(albums: map<string, Album>, folders: map<FolderId, Folder>, now: int): map<string, Album> {
    map id | id in albums :: if HasMissingFolder(albums[id], folders) then albums[id].(importedAt := now) else albums[id]
  }

  function PutAlbums(albums: map<string, Album>, lib: int, puts: map<string, set<FolderId>>, touches: set<string>, now: int): map<string, Album> {
    map id | id in albums.Keys + puts.Keys ::
      if id in puts then Album(lib, puts[id], now)
      else if id in touches then albums[id].(importedAt := now)
      else albums[id]
  }

  /** The albums whose import time is later than the end of their library's last scan. */
  predicate Touched(libs: map<int, Library>, albums: map<string, Album>, id: string) {
    id in albums && albums[id].lib in libs && albums[id].importedAt > libs[albums[id].lib].lastScanAt
  }

  /** GetTouchedAlbums. */
  function TouchedAlbums(libs: map<int, Library>, albums: map<string, Album>, lib: int): set<string> {
    set id | id in albums && albums[id].lib == lib && Touched(libs, albums, id)
  }

  function AlbumsWithMissingFolder(albums: map<string, Album>, folders: map<FolderId, Folder>): set<string> {
    set id | id in albums && HasMissingFolder(albums[id], folders)
  }

  function Stamp<K>(times: map<K, int>, keys: set<K>, now: int): map<K, int> {
    map k | k in times.Keys + keys :: if k in keys then now else times[k]
  }

  // ----- Transitions -----

  predicate InStage(s: State, e: Event) {
    s.process.Some? &&
    var p := s.process.value;
    match e
    case PrepareLibrary(lib, _) => p.stage.Preparing? && lib in p.stage.todo && lib in s.libs
    case Prepared => p.stage.Preparing? && p.stage.todo == {}
    case CreateJob(lib, _, _) => p.stage.Scanning? && lib in p.stage.unplanned && lib in s.libs
    case StartWalk(lib, _) => p.stage.Scanning? && p.stage.unplanned == {} && lib in p.jobs && p.jobs[lib].walk.None?
    case Visit(lib) => p.stage.Scanning? && lib in p.jobs && p.jobs[lib].walk.Some? && p.jobs[lib].walk.value != []
    case Persist(entry, _, _, _) => p.stage.Scanning? && entry in p.queue
    case Finalize(_) => p.stage.Scanning? && (p.failed || PhaseOneDone(p))
    case ReadTouched(lib) => p.stage.Refreshing? && !p.failed && lib in p.stage.unread && lib in s.libs
    case Refresh(album) =>
      && p.stage.Refreshing? && !p.failed && Touched(s.libs, s.albums, album)
      && s.albums[album].lib in p.libs - p.stage.unread
    case CollectGarbage(_, _) => p.stage.Refreshing? && !p.failed && p.stage.unread == {}
    case ScanEnd => p.stage.Refreshing? && !p.failed && p.stage.unread == {}
    case _ => true
  }

  predicate PhaseOneDone(p: Process) {
    && p.stage.Scanning? && p.stage.unplanned == {} && p.queue == multiset{}
    && forall lib :: lib in p.jobs ==> p.jobs[lib].Walked()
  }

  predicate Enabled(s: State, e: Event) {
    if e.Begin? then s.process.None? else InStage(s, e)
  }

  function NewLibs(s: State, e: Event, now: int): map<int, Library>
    requires Enabled(s, e)
  {
    match e
    case PrepareLibrary(lib, outcome) =>
      if Begins(s, lib, outcome) then s.libs[lib := Started(s.libs[lib], s.process.value.full, now)] else s.libs
    case ScanEnd => map id | id in s.libs :: if id in s.process.value.libs then Ended(s.libs[id], now) else s.libs[id]
    case _ => s.libs
  }

  /** ScanBegin runs when no scan of the library is in progress. */
  predicate Begins(s: State, lib: int, outcome: BeginOutcome) {
    lib in s.libs && !s.libs[lib].isVirtual && s.libs[lib].startedAt == 0 && !outcome.NotBegun?
  }

  /** The virtual library is skipped, and so is one that could not be begun, or not read back. */
  predicate Keeps(lib: Library, outcome: BeginOutcome) {
    !lib.isVirtual && (lib.startedAt != 0 || outcome.Begun?)
  }

  function NewFolders(s: State, e: Event, now: int): map<FolderId, Folder>
    requires Enabled(s, e)
  {
    match e
    case Persist(entry, _, _, ok) => if ok then s.folders[entry.id := Folder(now, entry.hash, false)] else s.folders
    case Finalize(ok) => if ok then MarkMissing(s.folders, Leftover(s.process.value.jobs), now) else s.folders
    case CollectGarbage(gone, _) => s.folders - gone
    case _ => s.folders
  }

  function NewAlbums(s: State, e: Event, now: int): map<string, Album>
    requires Enabled(s, e)
  {
    match e
    case Persist(entry, puts, touches, ok) => if ok then PutAlbums(s.albums, entry.id.lib, puts, touches, now) else s.albums
    case Finalize(ok) =>
      if ok && Leftover(s.process.value.jobs) != {} then TouchByMissingFolder(s.albums, NewFolders(s, e, now), now) else s.albums
    case Refresh(album) => s.albums[album := s.albums[album].(importedAt := now)]
    case CollectGarbage(_, gone) => s.albums - gone
    case _ => s.albums
  }

  function NewJob(s: State, e: Event): Job
    requires Enabled(s, e) && (e.CreateJob? || e.StartWalk? || e.Visit?)
  {
    match e
    case CreateJob(lib, _, scope) =>
      var p := s.process.value;
      var known := KnownFolders(s.folders, lib, p.selective, scope);
      Job(s.libs[lib].startedAt, s.libs[lib].full || p.full, known, None, known.Keys, {}, {})
    case StartWalk(lib, found) => s.process.value.jobs[lib].(walk := Some(found))
    case Visit(lib) =>
      var job := s.process.value.jobs[lib];
      var f := job.walk.value[0];
      var id := FolderId(lib, f.path);
      job.(lastUpdates := job.lastUpdates - {id}, walk := Some(job.walk.value[1..]),
           entered := job.entered + {id}, emitted := if f.readable then job.emitted + {id} else job.emitted)
  }

  function NewQueue(s: State, e: Event): multiset<Entry>
    requires Enabled(s, e) && !e.Begin?
  {
    var p := s.process.value;
    match e
    case Visit(lib) =>
      var f := p.jobs[lib].walk.value[0];
      var id := FolderId(lib, f.path);
      if Puts(p.full, p.jobs[lib], LastUpdate(p.jobs[lib], id), f) then p.queue + multiset{Entry(id, f.hash)} else p.queue
    case Persist(entry, _, _, _) => p.queue - multiset{entry}
    case _ => p.queue
  }

  function NewStage(s: State, e: Event): Stage
    requires Enabled(s, e) && !e.Begin?
  {
    var p := s.process.value;
    match e
    case PrepareLibrary(lib, _) => Preparing(p.stage.todo - {lib})
    case Prepared => Scanning(p.libs)
    case CreateJob(lib, _, _) => Scanning(p.stage.unplanned - {lib})
    case Finalize(_) => Refreshing(p.libs)
    case ReadTouched(lib) => Refreshing(p.stage.unread - {lib})
    case _ => p.stage
  }

  function NewProcess(s: State, e: Event): Option<Process>
    requires Enabled(s, e)
  {
    if e.Begin? then
      var libs := Targeted(s.libs, e.targets);
      Some(Process(FullMode(s.libs, libs, e.requested), e.targets.Some?, libs, map[], multiset{}, Preparing(libs), false))
    else
      var p := s.process.value;
      if e.ScanEnd? || e.Crash? || (e.Prepared? && p.libs == {}) then None
      else Some(Process(
        p.full, p.selective,
        if e.PrepareLibrary? && !Keeps(s.libs[e.lib], e.outcome) then p.libs - {e.lib} else p.libs,
        if (e.CreateJob? && e.ok) || e.StartWalk? || e.Visit? then p.jobs[e.lib := NewJob(s, e)] else p.jobs,
        NewQueue(s, e),
        NewStage(s, e),
        p.failed || ((e.Persist? || e.Finalize?) && !e.ok)))
  }

  function NewHistory(s: State, e: Event, now: int): History
    requires Enabled(s, e)
  {
    var h := s.history;
    History(
      if e.Persist? && e.ok && s.process.value.full then h.imported[e.entry.id := now] else h.imported,
      match e {
        case Persist(_, puts, touches, ok) => if ok then Stamp(h.touched, puts.Keys + touches * s.albums.Keys, now) else h.touched
        case Finalize(ok) =>
          if ok && Leftover(s.process.value.jobs) != {}
          then Stamp(h.touched, AlbumsWithMissingFolder(s.albums, NewFolders(s, e, now)), now)
          else h.touched
        case _ => h.touched
      },
      if e.ReadTouched?
      then Stamp(h.offered, TouchedAlbums(s.libs, s.albums, e.lib), now)
      else h.offered)
  }

  /** One atomic step; the clock moves on with every step. */
  function Apply(s: State, e: Event): State
    requires Enabled(s, e)
  {
    var now := s.clock + 1;
    State(now, NewLibs(s, e, now), NewFolders(s, e, now), NewAlbums(s, e, now), NewProcess(s, e), NewHistory(s, e, now))
  }

  // ----- Runs -----

  predicate Init(s: State) {
    && s.process.None? && s.history == History(map[], map[], map[]) && s.clock >= 0
    && (forall id :: id in s.libs ==> s.libs[id].startedAt == 0 && !s.libs[id].full && 0 <= s.libs[id].lastScanAt <= s.clock)
    && (forall id :: id in s.folders ==> s.folders[id].updatedAt <= s.clock)
    && (forall id :: id in s.albums ==> s.albums[id].importedAt <= s.clock)
  }

  ghost predicate IsRun(states: seq<State>, events: seq<Event>) {
    && |states| == |events| + 1
    && Init(states[0])
    && forall i :: 0 <= i < |events| ==> Enabled(states[i], events[i]) && states[i + 1] == Apply(states[i], events[i])
  }

  lemma RunStep(states: seq<State>, events: seq<Event>, i: nat)
    requires IsRun(states, events) && i < |events|
    ensures Enabled(states[i], events[i]) && states[i + 1] == Apply(states[i], events[i])
  {
  }
}
