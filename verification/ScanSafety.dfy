/**
 What restarts after a crash add up to: a full scan that ends has imported every folder its
 last walk passed on, the folders it did not meet are exactly the ones marked missing, and
 no touched album escapes phase 3.
 */
module ScanSafety {
  import opened ScanModel

  // ----- Invariants -----

  ghost predicate RowsWithin(libs: map<int, Library>, folders: map<FolderId, Folder>, albums: map<string, Album>, now: int) {
    && (forall id :: id in libs ==> libs[id].startedAt <= now && libs[id].lastScanAt <= now)
    && (forall id :: id in folders ==> folders[id].updatedAt <= now)
    && (forall id :: id in albums ==> albums[id].importedAt <= now)
  }

  ghost predicate Clocked(s: State) {
    && s.clock >= 0
    && RowsWithin(s.libs, s.folders, s.albums, s.clock)
    && (forall id :: id in s.history.touched ==> s.history.touched[id] <= s.clock)
  }

  /** The full flag is set only while a scan is in progress. */
  ghost predicate LibsValid(libs: map<int, Library>) {
    forall lib :: lib in libs ==> libs[lib].startedAt >= 0 && (libs[lib].full ==> libs[lib].startedAt > 0)
  }

  /** While a full scan is in progress, a folder row as recent as its start was imported since. */
  ghost predicate RecentIsImported(s: State) {
    forall id :: id in s.folders && id.lib in s.libs && s.libs[id.lib].full && !s.folders[id].missing
                 && s.folders[id].updatedAt >= s.libs[id.lib].startedAt ==>
                   At(s.history.imported, id) >= s.libs[id.lib].startedAt
  }

  function Unprepared(p: Process): set<int> {
    if p.stage.Preparing? then p.stage.todo else {}
  }

  ghost predicate ProcessValid(libs: map<int, Library>, p: Process) {
    && p.libs <= libs.Keys && p.jobs.Keys <= p.libs
    && (p.stage.Preparing? ==> p.stage.todo <= p.libs && p.jobs == map[] && p.queue == multiset{})
    && (p.stage.Scanning? ==> p.stage.unplanned <= p.libs && p.jobs.Keys !! p.stage.unplanned)
    && (p.stage.Refreshing? ==> p.stage.unread <= p.libs)
    && (forall lib :: lib in p.libs && libs[lib].full ==> p.full)
    && (forall lib :: lib in p.libs - Unprepared(p) ==> libs[lib].startedAt > 0)
    && (p.stage.Refreshing? && !p.failed ==> p.queue == multiset{} && forall lib :: lib in p.jobs ==> p.jobs[lib].Walked())
  }

  predicate JobValid(libs: map<int, Library>, p: Process, lib: int)
    requires lib in p.jobs && lib in libs
  {
    var job := p.jobs[lib];
    && job.startedAt == libs[lib].startedAt
    && job.full == (libs[lib].full || p.full)
    && job.lastUpdates.Keys == job.known - job.entered
    && job.emitted <= job.entered && (job.walk.None? ==> job.entered == {})
    && (forall id :: id in job.known + job.entered ==> id.lib == lib)
  }

  ghost predicate JobsValid(libs: map<int, Library>, p: Process)
    requires ProcessValid(libs, p)
  {
    && (forall lib :: lib in p.jobs ==> JobValid(libs, p, lib))
    && (forall entry :: entry in p.queue ==> entry.id.lib in p.jobs && entry.id in p.jobs[entry.id.lib].emitted)
  }

  /** During phase 1, a folder not yet met is still as it was when the job was created. */
  ghost predicate UnmetUnchanged(folders: map<FolderId, Folder>, p: Process) {
    p.stage.Scanning? ==>
      forall lib, id :: lib in p.jobs && id in p.jobs[lib].lastUpdates ==>
        id in folders && !folders[id].missing && folders[id].updatedAt == p.jobs[lib].lastUpdates[id].updatedAt
  }

  /** A present folder of a library scanned as a whole was known or met; after phase 1, it was met. */
  ghost predicate PresentIsAccounted(folders: map<FolderId, Folder>, p: Process) {
    !p.selective && !p.failed ==>
      forall id :: id in folders && id.lib in p.jobs && !folders[id].missing ==>
        id in p.jobs[id.lib].entered || (id in p.jobs[id.lib].known && !p.stage.Refreshing?)
  }

  ghost predicate InPipeline(queue: multiset<Entry>, id: FolderId) {
    exists hash :: Entry(id, hash) in queue
  }

  /** Every folder passed on by the walk of a full scan is imported, or on its way. */
  ghost predicate EmittedIsImported(s: State, p: Process)
    requires ProcessValid(s.libs, p)
  {
    !p.failed ==> forall lib, id :: lib in p.jobs && s.libs[lib].full && id in p.jobs[lib].emitted ==>
      InPipeline(p.queue, id) || At(s.history.imported, id) >= s.libs[lib].startedAt
  }

  ghost predicate ScanValid(s: State) {
    && Clocked(s) && LibsValid(s.libs) && RecentIsImported(s)
    && (s.process.Some? ==>
          && ProcessValid(s.libs, s.process.value) && JobsValid(s.libs, s.process.value)
          && UnmetUnchanged(s.folders, s.process.value) && PresentIsAccounted(s.folders, s.process.value)
          && EmittedIsImported(s, s.process.value))
  }

  // ----- One step -----

  lemma RowsClocked(s: State, e: Event)
    requires Clocked(s) && Enabled(s, e)
    ensures RowsWithin(NewLibs(s, e, s.clock + 1), NewFolders(s, e, s.clock + 1), NewAlbums(s, e, s.clock + 1), s.clock + 1)
  {
    hide HasMissingFolder, Leftover;
  }

  lemma ClockedStep(s: State, e: Event)
    requires Clocked(s) && Enabled(s, e)
    ensures Clocked(Apply(s, e))
  {
    hide NewLibs, NewFolders, NewAlbums, NewProcess, RowsWithin;
    RowsClocked(s, e);
  }

  lemma LibsStep(s: State, e: Event)
    requires Clocked(s) && LibsValid(s.libs) && Enabled(s, e)
    ensures LibsValid(NewLibs(s, e, s.clock + 1))
  {
  }

  /** A library is rewritten only when its scan begins or ends. */
  lemma LibKept(s: State, e: Event, lib: int)
    requires Enabled(s, e) && lib in s.libs
    requires !(e.PrepareLibrary? && e.lib == lib && s.libs[lib].startedAt == 0)
    requires !(e.ScanEnd? && lib in s.process.value.libs)
    ensures lib in NewLibs(s, e, s.clock + 1) && NewLibs(s, e, s.clock + 1)[lib] == s.libs[lib]
  {
  }

  lemma RecentIsImportedStep(s: State, e: Event)
    requires ScanValid(s) && Enabled(s, e)
    ensures RecentIsImported(Apply(s, e))
  {
  }

  lemma ProcessStep(s: State, e: Event)
    requires ScanValid(s) && Enabled(s, e) && NewProcess(s, e).Some?
    ensures ProcessValid(NewLibs(s, e, s.clock + 1), NewProcess(s, e).value)
  {
  }

  /** The step creates the job of the library, or moves its walk on. */
  predicate WorksOn(e: Event, lib: int) {
    (e.CreateJob? && e.ok && e.lib == lib) || (e.StartWalk? && e.lib == lib) || (e.Visit? && e.lib == lib)
  }

  lemma OtherJobKept(s: State, e: Event, lib: int)
    requires Enabled(s, e) && NewProcess(s, e).Some? && lib in NewProcess(s, e).value.jobs && !WorksOn(e, lib)
    ensures s.process.Some? && lib in s.process.value.jobs
    ensures NewProcess(s, e).value.jobs[lib] == s.process.value.jobs[lib]
    ensures NewProcess(s, e).value.full == s.process.value.full && !e.ScanEnd?
  {
    hide NewQueue, NewStage, NewJob;
  }

  lemma JobWorkedOn(s: State, e: Event, lib: int)
    requires ScanValid(s) && Enabled(s, e) && NewProcess(s, e).Some?
    requires lib in NewProcess(s, e).value.jobs && lib in NewLibs(s, e, s.clock + 1) && WorksOn(e, lib)
    ensures JobValid(NewLibs(s, e, s.clock + 1), NewProcess(s, e).value, lib)
  {
    hide NewQueue, NewStage, RecentIsImported, UnmetUnchanged, PresentIsAccounted, EmittedIsImported, Clocked, LibsValid;
    var p := s.process.value;
    var before := lib in p.jobs ==> JobValid(s.libs, p, lib);
  }

  lemma JobStep(s: State, e: Event, lib: int)
    requires ScanValid(s) && Enabled(s, e) && NewProcess(s, e).Some?
    requires lib in NewProcess(s, e).value.jobs && lib in NewLibs(s, e, s.clock + 1)
    ensures JobValid(NewLibs(s, e, s.clock + 1), NewProcess(s, e).value, lib)
  {
    if WorksOn(e, lib) {
      JobWorkedOn(s, e, lib);
    } else {
      hide NewQueue, NewStage, NewJob, RecentIsImported, UnmetUnchanged, PresentIsAccounted, EmittedIsImported, Clocked;
      OtherJobKept(s, e, lib);
      hide NewProcess;
      assert JobValid(s.libs, s.process.value, lib);
      LibKept(s, e, lib);
    }
  }

  /** Only a visit adds to the queue. */
  lemma QueuedBefore(s: State, e: Event, entry: Entry)
    requires Enabled(s, e) && NewProcess(s, e).Some? && entry in NewProcess(s, e).value.queue
    ensures s.process.Some?
    ensures || entry in s.process.value.queue
            || (e.Visit? && var f := s.process.value.jobs[e.lib].walk.value[0]; f.readable && entry.id == FolderId(e.lib, f.path))
  {
    hide NewStage, NewJob, LastUpdate, Outdated;
  }

  lemma EmittedGrow(s: State, e: Event, lib: int)
    requires ScanValid(s) && Enabled(s, e) && NewProcess(s, e).Some? && s.process.Some? && lib in s.process.value.jobs
    ensures lib in NewProcess(s, e).value.jobs
    ensures s.process.value.jobs[lib].emitted <= NewProcess(s, e).value.jobs[lib].emitted
    ensures e.Visit? && e.lib == lib ==>
              var f := s.process.value.jobs[lib].walk.value[0];
              f.readable ==> FolderId(lib, f.path) in NewProcess(s, e).value.jobs[lib].emitted
  {
    hide NewStage, NewQueue, RecentIsImported, UnmetUnchanged, PresentIsAccounted, EmittedIsImported, Clocked, LibsValid, JobsValid;
  }

  lemma QueueStep(s: State, e: Event, entry: Entry)
    requires ScanValid(s) && Enabled(s, e) && NewProcess(s, e).Some?
    requires entry in NewProcess(s, e).value.queue
    ensures var p := NewProcess(s, e).value; entry.id.lib in p.jobs && entry.id in p.jobs[entry.id.lib].emitted
  {
    QueuedBefore(s, e, entry);
    hide NewProcess, RecentIsImported, UnmetUnchanged, PresentIsAccounted, EmittedIsImported, Clocked, LibsValid, JobValid, ProcessValid;
    if entry in s.process.value.queue {
      EmittedGrow(s, e, entry.id.lib);
    } else {
      EmittedGrow(s, e, e.lib);
    }
  }

  lemma JobsStep(s: State, e: Event)
    requires ScanValid(s) && Enabled(s, e) && NewProcess(s, e).Some?
    requires ProcessValid(NewLibs(s, e, s.clock + 1), NewProcess(s, e).value)
    ensures JobsValid(NewLibs(s, e, s.clock + 1), NewProcess(s, e).value)
  {
    hide ScanValid, Enabled, NewLibs, NewProcess, JobValid;
    var p := NewProcess(s, e).value;
    forall lib | lib in p.jobs
      ensures JobValid(NewLibs(s, e, s.clock + 1), p, lib)
    {
      JobStep(s, e, lib);
    }
    forall entry | entry in p.queue
      ensures entry.id.lib in p.jobs && entry.id in p.jobs[entry.id.lib].emitted
    {
      QueueStep(s, e, entry);
    }
  }

  lemma UnmetUnchangedStep(s: State, e: Event)
    requires ScanValid(s) && Enabled(s, e) && NewProcess(s, e).Some?
    ensures UnmetUnchanged(NewFolders(s, e, s.clock + 1), NewProcess(s, e).value)
  {
    hide RecentIsImported, PresentIsAccounted, EmittedIsImported, Clocked, LibsValid, NewQueue, LastUpdate, Puts;
  }

  lemma UnmetIsLeftover(jobs: map<int, Job>, id: FolderId)
    requires id.lib in jobs
    ensures id in jobs[id.lib].lastUpdates ==> id in Leftover(jobs)
  {
  }

  lemma PresentStaysAccounted(s: State, e: Event, id: FolderId)
    requires ScanValid(s) && Enabled(s, e) && NewProcess(s, e).Some?
    requires !NewProcess(s, e).value.selective && !NewProcess(s, e).value.failed && id.lib in NewProcess(s, e).value.jobs
    requires id in NewFolders(s, e, s.clock + 1) && !NewFolders(s, e, s.clock + 1)[id].missing
    ensures var p := NewProcess(s, e).value;
            id in p.jobs[id.lib].entered || (id in p.jobs[id.lib].known && !p.stage.Refreshing?)
  {
    hide RecentIsImported, UnmetUnchanged, EmittedIsImported, Clocked, LibsValid, NewQueue, LastUpdate, Puts;
    var p := s.process.value;
    if id.lib in p.jobs {
      assert JobValid(s.libs, p, id.lib);
      UnmetIsLeftover(p.jobs, id);
    } else {
      assert e.CreateJob? && e.lib == id.lib;
    }
  }

  lemma PresentIsAccountedStep(s: State, e: Event)
    requires ScanValid(s) && Enabled(s, e) && NewProcess(s, e).Some?
    ensures PresentIsAccounted(NewFolders(s, e, s.clock + 1), NewProcess(s, e).value)
  {
    hide ScanValid, Enabled, NewProcess, NewFolders;
    var folders, p := NewFolders(s, e, s.clock + 1), NewProcess(s, e).value;
    if !p.selective && !p.failed {
      forall id | id in folders && id.lib in p.jobs && !folders[id].missing
        ensures id in p.jobs[id.lib].entered || (id in p.jobs[id.lib].known && !p.stage.Refreshing?)
      {
        PresentStaysAccounted(s, e, id);
      }
    }
  }

  /** A folder that the walk passes on and the producer does not put has been imported. */
  lemma SkippedIsImported(s: State, lib: int)
    requires ScanValid(s) && Enabled(s, Visit(lib)) && s.libs[lib].full
    ensures var p, f := s.process.value, s.process.value.jobs[lib].walk.value[0];
            var id := FolderId(lib, f.path);
            f.readable && !Puts(p.full, p.jobs[lib], LastUpdate(p.jobs[lib], id), f) ==>
              At(s.history.imported, id) >= s.libs[lib].startedAt
  {
    assert JobValid(s.libs, s.process.value, lib);
  }

  lemma QueuedAfter(s: State, e: Event, entry: Entry)
    requires Enabled(s, e) && !e.Begin? && NewProcess(s, e).Some? && entry in s.process.value.queue
    ensures entry in NewProcess(s, e).value.queue || (e.Persist? && e.entry == entry)
  {
    hide NewStage, NewJob, Puts, LastUpdate;
  }


  /** What the pipeline takes out, it imports. */
  lemma PipelineStep(s: State, e: Event, lib: int, id: FolderId)
    requires ScanValid(s) && Enabled(s, e) && NewProcess(s, e).Some?
    requires lib in s.libs && id.lib == lib && s.libs[lib].full && s.process.Some? && lib in s.process.value.jobs
    requires InPipeline(s.process.value.queue, id) || At(s.history.imported, id) >= s.libs[lib].startedAt
    requires !(e.Persist? && !e.ok) && !e.ScanEnd? && !e.Begin?
    ensures InPipeline(NewProcess(s, e).value.queue, id) || At(Apply(s, e).history.imported, id) >= s.libs[lib].startedAt
  {
    hide NewProcess, NewLibs, NewFolders, NewAlbums, RecentIsImported, UnmetUnchanged, PresentIsAccounted, EmittedIsImported, JobsValid;
    if InPipeline(s.process.value.queue, id) {
      var hash :| Entry(id, hash) in s.process.value.queue;
      QueuedAfter(s, e, Entry(id, hash));
    }
  }

  lemma EmittedIsImportedAt(s: State, e: Event, lib: int, id: FolderId)
    requires ScanValid(s) && Enabled(s, e) && NewProcess(s, e).Some? && !NewProcess(s, e).value.failed
    requires lib in NewProcess(s, e).value.jobs && lib in NewLibs(s, e, s.clock + 1) && NewLibs(s, e, s.clock + 1)[lib].full
    requires id in NewProcess(s, e).value.jobs[lib].emitted
    ensures InPipeline(NewProcess(s, e).value.queue, id)
            || At(Apply(s, e).history.imported, id) >= NewLibs(s, e, s.clock + 1)[lib].startedAt
  {
    hide RecentIsImported, UnmetUnchanged, PresentIsAccounted, Clocked, LibsValid, Puts;
    JobIsOld(s, e, lib);
    var p := s.process.value;
    LibKept(s, e, lib);
    assert JobValid(s.libs, p, lib);
    if id in p.jobs[lib].emitted {
      PipelineStep(s, e, lib, id);
    } else {
      assert e == Visit(lib);
      SkippedIsImported(s, lib);
      var f := p.jobs[lib].walk.value[0];
      if Puts(p.full, p.jobs[lib], LastUpdate(p.jobs[lib], id), f) {
        assert Entry(id, f.hash) in NewProcess(s, e).value.queue;
      }
    }
  }

  lemma JobIsOld(s: State, e: Event, lib: int)
    requires ScanValid(s) && Enabled(s, e) && NewProcess(s, e).Some? && lib in NewProcess(s, e).value.jobs
    requires NewProcess(s, e).value.jobs[lib].emitted != {}
    ensures s.process.Some? && lib in s.process.value.jobs && !s.process.value.stage.Preparing?
    ensures s.process.value.failed ==> NewProcess(s, e).value.failed
  {
    hide RecentIsImported, UnmetUnchanged, PresentIsAccounted, EmittedIsImported, Clocked, LibsValid, NewQueue, NewStage;
  }

  lemma EmittedIsImportedStep(s: State, e: Event)
    requires ScanValid(s) && Enabled(s, e) && NewProcess(s, e).Some?
    requires ProcessValid(NewLibs(s, e, s.clock + 1), NewProcess(s, e).value)
    ensures EmittedIsImported(Apply(s, e), NewProcess(s, e).value)
  {
    hide ScanValid, Enabled, NewProcess, NewLibs, NewFolders, NewHistory, NewAlbums, InPipeline;
    var p := NewProcess(s, e).value;
    if !p.failed {
      forall lib, id | lib in p.jobs && Apply(s, e).libs[lib].full && id in p.jobs[lib].emitted
        ensures InPipeline(p.queue, id) || At(Apply(s, e).history.imported, id) >= Apply(s, e).libs[lib].startedAt
      {
        EmittedIsImportedAt(s, e, lib, id);
      }
    }
  }

  /** The invariants hold after every step. */
  lemma ScanStep(s: State, e: Event)
    requires ScanValid(s) && Enabled(s, e)
    ensures ScanValid(Apply(s, e))
  {
    hide Enabled, NewProcess, NewLibs, NewFolders, NewHistory, NewAlbums, Clocked, LibsValid, RecentIsImported,
         ProcessValid, JobsValid, UnmetUnchanged, PresentIsAccounted, EmittedIsImported;
    ClockedStep(s, e);
    LibsStep(s, e);
    RecentIsImportedStep(s, e);
    if NewProcess(s, e).Some? {
      ProcessStep(s, e);
      JobsStep(s, e);
      UnmetUnchangedStep(s, e);
      PresentIsAccountedStep(s, e);
      EmittedIsImportedStep(s, e);
    }
  }

  lemma {:induction false} RunsAreValid(states: seq<State>, events: seq<Event>, n: nat)
    requires IsRun(states, events) && n < |states|
    ensures ScanValid(states[n])
  {
    if n > 0 {
      RunsAreValid(states, events, n - 1);
      RunStep(states, events, n - 1);
      ScanStep(states[n - 1], events[n - 1]);
    }
  }
}
