/**
 Exactly which folders have been imported when a scan ends: over all the processes that
 worked on a full scan, and by a single process in full mode.
 */
module ScanImports {
  import opened ScanModel
  import opened ScanSafety
  import opened ScanRuns

  // ----- A full scan, over all its processes -----

  /** A row is at least as recent as its import, and no import lies in the future. */
  ghost predicate ImportsAreRows(s: State) {
    && (forall id :: id in s.history.imported ==> s.history.imported[id] <= s.clock)
    && (forall id :: id in s.folders && id in s.history.imported ==> s.history.imported[id] <= s.folders[id].updatedAt)
  }

  lemma ImportsAreRowsStep(s: State, e: Event)
    requires Clocked(s) && ImportsAreRows(s) && Enabled(s, e)
    ensures ImportsAreRows(Apply(s, e))
  {
    hide NewLibs, NewAlbums, NewProcess, Leftover;
  }

  lemma {:induction false} RunsKeepImports(states: seq<State>, events: seq<Event>, n: nat)
    requires IsRun(states, events) && n < |states|
    ensures ImportsAreRows(states[n])
  {
    hide Apply, Enabled;
    if n > 0 {
      RunsKeepImports(states, events, n - 1);
      RunsAreValid(states, events, n - 1);
      RunStep(states, events, n - 1);
      ImportsAreRowsStep(states[n - 1], events[n - 1]);
    }
  }

  /**
   When a full scan of a library ends, however many processes worked on it, a present folder
   has been imported since it began if and only if its row is as recent as the beginning.
   Nothing is asked of the process that ends the scan: it may be selective, and it may have
   no job for the library.
   */
  lemma ImportedIff(states: seq<State>, events: seq<Event>, i: nat, j: nat, lib: int, id: FolderId)
    requires IsRun(states, events) && i < j < |events| && BeginsFull(states[i], events[i], lib)
    requires NotEnded(states, events, i, j, lib) && Ends(states[j], events[j], lib)
    requires id.lib == lib && id in states[j].folders && !states[j].folders[id].missing
    ensures ImportedSince(states, events, i, j, id) <==> states[j].folders[id].updatedAt >= states[i + 1].clock
  {
    hide Apply, Enabled, Init;
    RestartsAreFull(states, events, i, j, lib);
    RunsAreValid(states, events, i);
    RunStep(states, events, i);
    BeginRecordsStart(states[i], events[i], lib);
    RunsAreValid(states, events, j);
    RunsKeepImports(states, events, j);
    ImportsSinceBeginning(states, events, i, j, id);
    hide ImportedSince, IsRun;
  }

  /**
   While a full scan is in progress, the producer puts a readable folder unless it was known,
   has been imported since the scan began, and has not changed.
   */
  lemma FullScanPutsIff(s: State, lib: int)
    requires ScanValid(s) && ImportsAreRows(s) && Enabled(s, Visit(lib)) && s.libs[lib].full
    ensures var p, job := s.process.value, s.process.value.jobs[lib];
            var f := job.walk.value[0];
            var id := FolderId(lib, f.path);
            f.readable ==>
              (Puts(p.full, job, LastUpdate(job, id), f) <==>
                 !(id in job.lastUpdates && At(s.history.imported, id) >= s.libs[lib].startedAt && job.lastUpdates[id].hash == f.hash))
  {
    hide PresentIsAccounted, EmittedIsImported;
    assert JobValid(s.libs, s.process.value, lib);
  }

  // ----- One process -----

  /** The process that begins at event b is still at work at state j. */
  ghost predicate AtWork(states: seq<State>, events: seq<Event>, b: nat, j: nat) {
    && b < j <= |events| && IsRun(states, events) && events[b].Begin?
    && forall k :: b < k <= j ==> states[k].process.Some?
  }

  /** A job in full mode finds the folder older than the start of the scan, or changed. */
  predicate FoundOutdated(s: State, e: Event, id: FolderId) {
    && e.Visit? && Enabled(s, e) && id.lib == e.lib
    && var job := s.process.value.jobs[e.lib];
       var f, info := job.walk.value[0], LastUpdate(job, id);
       f.path == id.path && f.readable && (info.updatedAt < job.startedAt || info.hash != f.hash)
  }

  /** The process has imported the folder, or is about to. */
  ghost predicate TakenUp(s: State, id: FolderId, start: int) {
    At(s.history.imported, id) > start || (s.process.Some? && InPipeline(s.process.value.queue, id))
  }

  lemma BeginTakesUpNothing(s: State, e: Event, id: FolderId)
    requires ImportsAreRows(s) && s.clock >= 0 && Enabled(s, e) && e.Begin?
    ensures !TakenUp(Apply(s, e), id, Apply(s, e).clock)
  {
  }

  /** Past its beginning a process stays in its mode, drops no job, and does not recover from a failure. */
  lemma ProcessGoesOn(s: State, e: Event)
    requires Enabled(s, e) && s.process.Some? && Apply(s, e).process.Some?
    ensures var p, p' := s.process.value, Apply(s, e).process.value;
            p'.full == p.full && p.jobs.Keys <= p'.jobs.Keys && (p.failed ==> p'.failed)
    ensures Apply(s, e).clock == s.clock + 1
  {
    hide NewJob, NewQueue, NewStage, NewLibs, NewFolders, NewAlbums, NewHistory;
  }

  lemma VisitTakesUp(s: State, e: Event, id: FolderId, start: int)
    requires ScanValid(s) && Enabled(s, e) && e.Visit? && s.process.value.full
    ensures TakenUp(Apply(s, e), id, start) <==> TakenUp(s, id, start) || FoundOutdated(s, e, id)
  {
    hide RecentIsImported, UnmetUnchanged, PresentIsAccounted, EmittedIsImported, Clocked, LibsValid;
    var p := s.process.value;
    var job := p.jobs[e.lib];
    assert JobValid(s.libs, p, e.lib);
    var f := job.walk.value[0];
    var entry := Entry(FolderId(e.lib, f.path), f.hash);
    var queue' := NewQueue(s, e);
    assert Apply(s, e).process.value.queue == queue';
    if Puts(true, job, LastUpdate(job, entry.id), f) {
      assert entry in queue';
      assert forall x :: x in queue' <==> x in p.queue || x == entry;
    }
  }

  lemma PersistTakesUp(s: State, e: Event, id: FolderId, start: int)
    requires Enabled(s, e) && e.Persist? && e.ok && s.process.value.full && start <= s.clock
    ensures TakenUp(Apply(s, e), id, start) <==> TakenUp(s, id, start)
  {
    hide NewLibs, NewFolders, NewAlbums;
    var p := s.process.value;
    var queue' := NewQueue(s, e);
    assert Apply(s, e).process.value.queue == queue';
    assert forall x :: x in p.queue <==> x in queue' || x == e.entry;
  }

  lemma OthersTakeUp(s: State, e: Event, id: FolderId, start: int)
    requires Enabled(s, e) && s.process.Some? && Apply(s, e).process.Some? && !e.Visit? && !e.Persist?
    ensures TakenUp(Apply(s, e), id, start) <==> TakenUp(s, id, start)
  {
    hide NewLibs, NewFolders, NewAlbums, NewJob, NewStage, InPipeline;
  }

  lemma OneMoreTakenUp(s: State, e: Event, id: FolderId, start: int)
    requires ScanValid(s) && Enabled(s, e) && s.process.Some? && s.process.value.full && start <= s.clock
    requires Apply(s, e).process.Some? && !Apply(s, e).process.value.failed
    ensures TakenUp(Apply(s, e), id, start) <==> TakenUp(s, id, start) || FoundOutdated(s, e, id)
  {
    hide ScanValid, TakenUp;
    if e.Visit? {
      VisitTakesUp(s, e, id, start);
    } else if e.Persist? {
      PersistTakesUp(s, e, id, start);
    } else {
      OthersTakeUp(s, e, id, start);
    }
  }

  lemma {:induction false} TakenUpIff(states: seq<State>, events: seq<Event>, b: nat, j: nat, id: FolderId)
    requires AtWork(states, events, b, j) && states[j].process.value.full && !states[j].process.value.failed
    ensures TakenUp(states[j], id, states[b + 1].clock) <==>
              exists v :: b < v < j && FoundOutdated(states[v], events[v], id)
    ensures states[b + 1].clock <= states[j].clock
    decreases j
  {
    hide Apply, Enabled, Init, TakenUp, FoundOutdated;
    RunStep(states, events, j - 1);
    RunsAreValid(states, events, j - 1);
    if j == b + 1 {
      RunsKeepImports(states, events, b);
      BeginTakesUpNothing(states[b], events[b], id);
    } else {
      ProcessGoesOn(states[j - 1], events[j - 1]);
      TakenUpIff(states, events, b, j - 1, id);
      OneMoreTakenUp(states[j - 1], events[j - 1], id, states[b + 1].clock);
    }
  }

  /**
   A process in full mode that gets through phase 1 has imported a folder if and only if its
   walk could read it and found its row older than the start recorded for the library's scan,
   or its hash changed.
   */
  lemma FullProcessImportsIff(states: seq<State>, events: seq<Event>, b: nat, j: nat, id: FolderId)
    requires AtWork(states, events, b, j)
    requires states[j].process.value.full && !states[j].process.value.failed && states[j].process.value.stage.Refreshing?
    ensures ImportedSince(states, events, b, j, id) <==> exists v :: b < v < j && FoundOutdated(states[v], events[v], id)
  {
    hide Apply, Enabled, Init, FoundOutdated, ImportedSince;
    TakenUpIff(states, events, b, j, id);
    RunsAreValid(states, events, j);
    ImportsAreEvents(states, events, b, j, id);
  }

  /** A process imports nothing in a library that it has no job for. */
  lemma {:induction false} NoJobImportsNothing(states: seq<State>, events: seq<Event>, b: nat, j: nat, id: FolderId)
    requires AtWork(states, events, b, j) && id.lib !in states[j].process.value.jobs
    ensures !ImportedSince(states, events, b, j, id)
    decreases j
  {
    hide Apply, Enabled, Init, Imports;
    if j > b + 1 {
      RunStep(states, events, j - 1);
      RunsAreValid(states, events, j - 1);
      ProcessGoesOn(states[j - 1], events[j - 1]);
      NoJobImportsNothing(states, events, b, j - 1, id);
      WithoutJob(states[j - 1], events[j - 1], id);
    }
  }

  lemma WithoutJob(s: State, e: Event, id: FolderId)
    requires ScanValid(s) && Enabled(s, e) && s.process.Some? && id.lib !in s.process.value.jobs
    ensures !Imports(s, e, id)
  {
    hide RecentIsImported, UnmetUnchanged, PresentIsAccounted, EmittedIsImported, Clocked, LibsValid, ProcessValid;
  }
}
