/**
 The promises of the scan over whole runs, with any number of crashes and restarts between
 a library's scan beginning and ending.
 */
module ScanRuns {
  import opened Options
  import opened ScanModel
  import opened ScanSafety

  /** The event marks the scan of the library as completed. */
  predicate Ends(s: State, e: Event, lib: int) {
    e.ScanEnd? && s.process.Some? && lib in s.process.value.libs
  }

  predicate BeginsFull(s: State, e: Event, lib: int) {
    e.PrepareLibrary? && e.lib == lib && Enabled(s, e) && Begins(s, lib, e.outcome) && s.process.value.full
  }

  ghost predicate NotEnded(states: seq<State>, events: seq<Event>, i: nat, j: nat, lib: int)
    requires |states| > |events| && i <= j <= |events|
  {
    forall k :: i <= k < j ==> !Ends(states[k], events[k], lib)
  }

  // ----- Imports, as events -----

  /** A process in full mode persists the folder. */
  predicate Imports(s: State, e: Event, id: FolderId) {
    e.Persist? && e.ok && e.entry.id == id && s.process.Some? && s.process.value.full
  }

  /** The folder has been persisted in full mode by an event after event i. */
  ghost predicate ImportedSince(states: seq<State>, events: seq<Event>, i: nat, j: nat, id: FolderId)
    requires j <= |events| <= |states|
  {
    exists k :: i < k < j && Imports(states[k], events[k], id)
  }

  lemma {:induction false} ClockCounts(states: seq<State>, events: seq<Event>, n: nat)
    requires IsRun(states, events) && n < |states|
    ensures states[n].clock == states[0].clock + n && states[0].clock >= 0
  {
    hide Enabled, NewLibs, NewFolders, NewAlbums, NewProcess, NewHistory;
    if n > 0 {
      ClockCounts(states, events, n - 1);
      RunStep(states, events, n - 1);
    }
  }

  lemma ImportStep(s: State, e: Event, id: FolderId)
    requires Enabled(s, e)
    ensures At(Apply(s, e).history.imported, id) == if Imports(s, e, id) then Apply(s, e).clock else At(s.history.imported, id)
  {
    hide NewLibs, NewFolders, NewAlbums, NewProcess;
  }

  lemma NothingImported(s: State, id: FolderId)
    requires Init(s)
    ensures At(s.history.imported, id) == 0
  {
  }

  /** The recorded time of an import tells whether there has been one since an event. */
  lemma {:induction false} ImportsAreEvents(states: seq<State>, events: seq<Event>, i: nat, j: nat, id: FolderId)
    requires IsRun(states, events) && i < |events| && j <= |events|
    ensures At(states[j].history.imported, id) > states[i + 1].clock <==> ImportedSince(states, events, i, j, id)
  {
    hide Apply, Enabled, Init, Imports;
    ClockCounts(states, events, i + 1);
    ClockCounts(states, events, j);
    if j == 0 {
      NothingImported(states[0], id);
    } else {
      ImportsAreEvents(states, events, i, j - 1, id);
      RunStep(states, events, j - 1);
      ImportStep(states[j - 1], events[j - 1], id);
    }
  }

  /** The event that begins a scan imports nothing. */
  lemma ImportsSinceBeginning(states: seq<State>, events: seq<Event>, i: nat, j: nat, id: FolderId)
    requires IsRun(states, events) && i < |events| && j <= |events| && (events[i].PrepareLibrary? || events[i].Begin?)
    ensures At(states[j].history.imported, id) >= states[i + 1].clock <==> ImportedSince(states, events, i, j, id)
  {
    ImportsAreEvents(states, events, i, j, id);
    NoImportAt(states, events, i, j, id);
    hide IsRun, ImportedSince;
  }

  lemma {:induction false} NoImportAt(states: seq<State>, events: seq<Event>, i: nat, j: nat, id: FolderId)
    requires IsRun(states, events) && i < |events| && j <= |events| && !events[i].Persist?
    ensures At(states[j].history.imported, id) != states[i + 1].clock
  {
    hide Apply, Enabled, Init;
    ClockCounts(states, events, i + 1);
    ClockCounts(states, events, j);
    if j == 0 {
      NothingImported(states[0], id);
    } else {
      NoImportAt(states, events, i, j - 1, id);
      RunStep(states, events, j - 1);
      ImportStep(states[j - 1], events[j - 1], id);
    }
  }

  // ----- Full scans complete -----

  lemma {:induction false} StaysInProgress(states: seq<State>, events: seq<Event>, i: nat, j: nat, lib: int)
    requires IsRun(states, events) && i <= j <= |events| && NotEnded(states, events, i, j, lib)
    requires lib in states[i].libs && states[i].libs[lib].startedAt > 0
    ensures lib in states[j].libs && states[j].libs[lib] == states[i].libs[lib]
  {
    hide Enabled, Apply, Init;
    if i < j {
      StaysInProgress(states, events, i, j - 1, lib);
      RunStep(states, events, j - 1);
      StaysInProgressStep(states[j - 1], events[j - 1], lib);
    }
  }

  lemma StaysInProgressStep(s: State, e: Event, lib: int)
    requires Enabled(s, e) && lib in s.libs && s.libs[lib].startedAt > 0 && !Ends(s, e, lib)
    ensures lib in Apply(s, e).libs && Apply(s, e).libs[lib] == s.libs[lib]
  {
    LibKept(s, e, lib);
  }

  lemma BeginRecordsStart(s: State, e: Event, lib: int)
    requires BeginsFull(s, e, lib) && s.clock >= 0
    ensures lib in Apply(s, e).libs
    ensures Apply(s, e).libs[lib].full && Apply(s, e).libs[lib].startedAt == Apply(s, e).clock > 0
  {
  }

  /**
   Until a full scan of a library has ended, whatever crashes come in between, every process
   that takes the library up again runs in full mode, quick as its request may be.
   */
  lemma RestartsAreFull(states: seq<State>, events: seq<Event>, i: nat, j: nat, lib: int)
    requires IsRun(states, events) && i < j <= |events| && BeginsFull(states[i], events[i], lib)
    requires NotEnded(states, events, i, j, lib)
    requires states[j].process.Some? && lib in states[j].process.value.libs
    ensures states[j].process.value.full
    ensures lib in states[j].libs && states[j].libs[lib].full && states[j].libs[lib].startedAt == states[i + 1].clock
  {
    hide Enabled, Apply, Init;
    RunsAreValid(states, events, i);
    RunStep(states, events, i);
    BeginRecordsStart(states[i], events[i], lib);
    StaysInProgress(states, events, i + 1, j, lib);
    RunsAreValid(states, events, j);
  }

  /**
   A full scan that begins at event i and ends at event j: every folder that the walk of the
   completing process passed on was imported, in full mode, after the scan began, by that
   process or by one of those that crashed before it.
   */
  lemma FullScanCompletes(states: seq<State>, events: seq<Event>, i: nat, j: nat, lib: int)
    requires IsRun(states, events) && i < j < |events| && BeginsFull(states[i], events[i], lib)
    requires NotEnded(states, events, i, j, lib) && Ends(states[j], events[j], lib)
    requires lib in states[j].process.value.jobs
    ensures states[j].process.value.jobs[lib].Walked()
    ensures forall id :: id in states[j].process.value.jobs[lib].emitted ==> ImportedSince(states, events, i, j, id)
  {
    hide Apply, Enabled, Init, ImportedSince;
    RestartsAreFull(states, events, i, j, lib);
    RunsAreValid(states, events, j);
    RunStep(states, events, j);
    EndingIsDone(states[j], lib);
    forall id | id in states[j].process.value.jobs[lib].emitted
      ensures ImportedSince(states, events, i, j, id)
    {
      ImportsSinceBeginning(states, events, i, j, id);
    }
  }

  lemma EndingIsDone(s: State, lib: int)
    requires ScanValid(s) && Enabled(s, ScanEnd)
    requires s.process.Some? && lib in s.process.value.jobs && s.libs[lib].full
    ensures s.process.value.jobs[lib].Walked()
    ensures forall id :: id in s.process.value.jobs[lib].emitted ==> At(s.history.imported, id) >= s.libs[lib].startedAt
  {
  }

  /**
   When the library was scanned as a whole and every folder the walk entered could be read,
   all its present folders have been imported since the full scan began.
   */
  lemma WholeLibraryIsImported(states: seq<State>, events: seq<Event>, i: nat, j: nat, lib: int, id: FolderId)
    requires IsRun(states, events) && i < j < |events| && BeginsFull(states[i], events[i], lib)
    requires NotEnded(states, events, i, j, lib) && Ends(states[j], events[j], lib)
    requires !states[j].process.value.selective && lib in states[j].process.value.jobs
    requires states[j].process.value.jobs[lib].entered == states[j].process.value.jobs[lib].emitted
    requires id.lib == lib && id in states[j].folders && !states[j].folders[id].missing
    ensures ImportedSince(states, events, i, j, id)
  {
    hide ImportedSince, Apply, Init;
    FullScanCompletes(states, events, i, j, lib);
    RunsAreValid(states, events, j);
    RunStep(states, events, j);
  }

  // ----- Crashes, and the steps outside phase 1 -----

  /** A crash loses the process and nothing else. */
  lemma CrashLosesProcess(s: State)
    requires Enabled(s, Crash)
    ensures Apply(s, Crash) == s.(clock := s.clock + 1, process := None)
  {
  }

  /** Phase 3 imports a touched album again, reads each library once, and the clean-up removes rows only. */
  lemma LaterPhases(s: State, e: Event)
    requires Enabled(s, e) && (e.ReadTouched? || e.Refresh? || e.CollectGarbage?)
    ensures var s', p := Apply(s, e), s.process.value;
            && s'.libs == s.libs && s'.history.imported == s.history.imported && s'.history.touched == s.history.touched
            && s'.process == Some(if e.ReadTouched? then p.(stage := Refreshing(p.stage.unread - {e.lib})) else p)
            && (e.ReadTouched? ==> s'.folders == s.folders && s'.albums == s.albums)
            && (e.Refresh? ==> s'.folders == s.folders && e.album in s.albums && s'.albums == s.albums[e.album := s.albums[e.album].(importedAt := s'.clock)])
            && (e.CollectGarbage? ==> s'.folders == s.folders - e.goneFolders && s'.albums == s.albums - e.goneAlbums)
  {
  }

  /** What can happen next: at any time a crash, and whatever is left to do in the stage of the process. */
  predicate IsOpen(s: State, e: Event) {
    match s.process
    case None => e.Begin?
    case Some(p) =>
      e.Crash? ||
      match p.stage {
        case Preparing(todo) => (e.PrepareLibrary? && e.lib in todo && e.lib in s.libs) || (e.Prepared? && todo == {})
        case Scanning(unplanned) =>
          || (e.CreateJob? && e.lib in unplanned && e.lib in s.libs)
          || (e.StartWalk? && unplanned == {} && e.lib in p.jobs && p.jobs[e.lib].walk == None)
          || (e.Visit? && e.lib in p.jobs && p.jobs[e.lib].walk.Some? && |p.jobs[e.lib].walk.value| > 0)
          || (e.Persist? && e.entry in p.queue)
          || (e.Finalize? && (p.failed || IsThrough(p, unplanned)))
        case Refreshing(unread) =>
          !p.failed &&
          (|| (e.ReadTouched? && e.lib in unread && e.lib in s.libs)
           || (e.Refresh? && IsDue(s, e.album) && s.albums[e.album].lib in p.libs && s.albums[e.album].lib !in unread)
           || (e.CollectGarbage? && unread == {})
           || (e.ScanEnd? && unread == {}))
      }
  }

  /** Every library has its job, every walk has come to its end, and the pipeline is empty. */
  predicate IsThrough(p: Process, unplanned: set<int>) {
    unplanned == {} && p.queue == multiset{} && forall lib :: lib in p.jobs ==> p.jobs[lib].walk == Some([])
  }

  /** The album was imported after the last scan of its library. */
  predicate IsDue(s: State, album: string) {
    album in s.albums && s.albums[album].lib in s.libs && s.albums[album].importedAt > s.libs[s.albums[album].lib].lastScanAt
  }

  lemma EventsAreOpenIff(s: State, e: Event)
    ensures Enabled(s, e) <==> IsOpen(s, e)
  {
  }

  lemma AnyOf<T>(s: set<T>) returns (x: T)
    requires s != {}
    ensures x in s
  {
    x :| x in s;
  }

  /** A process that has not failed is never stuck, and one that has can only crash once phase 1 is finalized. */
  lemma ProcessIsNeverStuck(s: State)
    requires ScanValid(s) && s.process.Some?
    ensures !s.process.value.failed || s.process.value.stage.Scanning? ==> exists e: Event :: !e.Crash? && Enabled(s, e)
    ensures s.process.value.failed && s.process.value.stage.Refreshing? ==> forall e: Event :: Enabled(s, e) ==> e == Crash
  {
    hide RecentIsImported, UnmetUnchanged, PresentIsAccounted, EmittedIsImported, Clocked;
    var p := s.process.value;
    match p.stage
    case Preparing(todo) =>
      if todo == {} {
        assert Enabled(s, Prepared);
      } else {
        var lib := AnyOf(todo);
        assert Enabled(s, PrepareLibrary(lib, Begun));
      }
    case Scanning(unplanned) =>
      if p.failed || IsThrough(p, unplanned) {
        assert Enabled(s, Finalize(true));
      } else if unplanned != {} {
        var lib := AnyOf(unplanned);
        assert Enabled(s, CreateJob(lib, true, {}));
      } else if p.queue != multiset{} {
        var entry :| entry in p.queue;
        assert Enabled(s, Persist(entry, map[], {}, true));
      } else {
        var lib :| lib in p.jobs && p.jobs[lib].walk != Some([]);
        assert Enabled(s, if p.jobs[lib].walk.None? then StartWalk(lib, []) else Visit(lib));
      }
    case Refreshing(unread) =>
      if unread == {} {
        assert !p.failed ==> Enabled(s, ScanEnd);
      } else {
        var lib := AnyOf(unread);
        assert !p.failed ==> Enabled(s, ReadTouched(lib));
      }
  }

  // ----- Scans end -----

  /**
   Ending a scan clears the start and the mode recorded for each library of the process and
   notes the time; other libraries stay as they are.
   */
  lemma EndClears(s: State, lib: int)
    requires Enabled(s, ScanEnd) && lib in s.libs
    ensures var s' := Apply(s, ScanEnd);
            && s'.process.None? && s'.libs.Keys == s.libs.Keys
            && if lib in s.process.value.libs
               then && s'.libs[lib].startedAt == 0 && !s'.libs[lib].full && s'.libs[lib].lastScanAt == s'.clock
                    && s'.libs[lib].isVirtual == s.libs[lib].isVirtual
               else s'.libs[lib] == s.libs[lib]
  {
    hide NewFolders, NewAlbums, NewHistory;
  }

  /** No scan of the library begins between the two. */
  ghost predicate NotBegun(states: seq<State>, events: seq<Event>, i: nat, j: nat, lib: int)
    requires |states| > |events| && j <= |events|
  {
    forall k :: i < k < j ==> !(events[k].PrepareLibrary? && events[k].lib == lib && !events[k].outcome.NotBegun?)
  }

  lemma StaysEndedStep(s: State, e: Event, lib: int)
    requires ScanValid(s) && Enabled(s, e) && lib in s.libs && s.libs[lib].startedAt == 0
    requires !(e.PrepareLibrary? && e.lib == lib && !e.outcome.NotBegun?)
    ensures lib in Apply(s, e).libs && Apply(s, e).libs[lib] == s.libs[lib]
  {
    hide RecentIsImported, JobsValid, UnmetUnchanged, PresentIsAccounted, EmittedIsImported, Clocked,
         NewFolders, NewAlbums, NewHistory, NewProcess;
  }

  /** Once a scan of a library has ended, nothing of it is in progress until the next one begins. */
  lemma {:induction false} EndedStaysEnded(states: seq<State>, events: seq<Event>, i: nat, j: nat, lib: int)
    requires IsRun(states, events) && i < j <= |events| && Ends(states[i], events[i], lib) && NotBegun(states, events, i, j, lib)
    ensures lib in states[j].libs && states[j].libs[lib].startedAt == 0 && !states[j].libs[lib].full
    ensures states[j].libs[lib].lastScanAt == states[i + 1].clock
  {
    hide Apply, Enabled, Init, ScanValid;
    if j == i + 1 {
      RunStep(states, events, i);
      EndedIsKnown(states, events, i, lib);
      EndClears(states[i], lib);
    } else {
      EndedStaysEnded(states, events, i, j - 1, lib);
      RunsAreValid(states, events, j - 1);
      RunStep(states, events, j - 1);
      StaysEndedStep(states[j - 1], events[j - 1], lib);
    }
  }

  lemma BeginIsRecorded(s: State, e: Event, lib: int)
    requires Enabled(s, e) && e.PrepareLibrary? && e.lib == lib && !e.outcome.NotBegun?
    requires lib in s.libs && !s.libs[lib].isVirtual && s.libs[lib].startedAt == 0
    ensures lib in Apply(s, e).libs && s.process.Some?
    ensures Apply(s, e).libs[lib] == s.libs[lib].(startedAt := Apply(s, e).clock, full := s.process.value.full)
  {
    hide NewFolders, NewAlbums, NewHistory, NewProcess;
  }

  /** The next process that takes up a library whose scan has ended records a new start, in its own mode. */
  lemma NextScanIsNew(states: seq<State>, events: seq<Event>, i: nat, j: nat, lib: int)
    requires IsRun(states, events) && i < j < |events| && Ends(states[i], events[i], lib) && NotBegun(states, events, i, j, lib)
    requires events[j].PrepareLibrary? && events[j].lib == lib && !events[j].outcome.NotBegun?
    requires lib in states[j].libs && !states[j].libs[lib].isVirtual
    ensures lib in states[j + 1].libs && states[j].process.Some?
    ensures var row := states[j + 1].libs[lib];
            row.startedAt == states[j + 1].clock && row.full == states[j].process.value.full && row.lastScanAt == states[i + 1].clock
  {
    hide Apply, Enabled, Init;
    EndedStaysEnded(states, events, i, j, lib);
    RunStep(states, events, j);
    BeginIsRecorded(states[j], events[j], lib);
  }

  /** The libraries that a scan is about: those asked for, or all of them. */
  predicate IsChosen(s: State, e: Event, id: int) {
    e.Begin? && id in s.libs && (e.targets.Some? ==> id in e.targets.value)
  }

  lemma BeginDecides(s: State, e: Event)
    requires Enabled(s, e) && e.Begin?
    ensures var p := Apply(s, e).process;
            && p.Some? && (forall id :: id in p.value.libs <==> IsChosen(s, e, id))
            && p.value.selective == e.targets.Some? && p.value.stage == Preparing(p.value.libs) && !p.value.failed
            && p.value.jobs == map[] && p.value.queue == multiset{}
            && (p.value.full <==> e.requested || exists id :: IsChosen(s, e, id) && s.libs[id].full)
  {
    hide NewLibs, NewFolders, NewAlbums, NewHistory;
    if e.requested || exists id :: IsChosen(s, e, id) && s.libs[id].full {
      assert Apply(s, e).process.value.full by {
        if !e.requested {
          var id :| IsChosen(s, e, id) && s.libs[id].full;
          assert id in Targeted(s.libs, e.targets) && id in s.libs && s.libs[id].full;
        }
      }
    }
  }

  /** A scan that has ended does not force the next one into full mode: only a request does, or another library's interrupted scan. */
  lemma NextScanIsQuick(states: seq<State>, events: seq<Event>, i: nat, b: nat, lib: int)
    requires IsRun(states, events) && i < b < |events| && Ends(states[i], events[i], lib) && NotBegun(states, events, i, b, lib)
    requires events[b].Begin?
    ensures states[b + 1].process.Some?
    ensures states[b + 1].process.value.full <==>
              events[b].requested || exists other :: other != lib && IsChosen(states[b], events[b], other) && states[b].libs[other].full
  {
    hide Apply, Enabled, Init;
    EndedStaysEnded(states, events, i, b, lib);
    RunStep(states, events, b);
    BeginDecides(states[b], events[b]);
  }

  // ----- Missing folders -----

  /**
   Phase 1 marks as missing exactly the folders that its job knew and its walk never entered;
   every other row, an entered folder's in particular, is left as it is.
   */
  lemma MissingIsExact(states: seq<State>, events: seq<Event>, n: nat, id: FolderId)
    requires IsRun(states, events) && n < |events| && events[n] == Finalize(true) && id in states[n].folders
    ensures var jobs, row, row' := states[n].process.value.jobs, states[n].folders[id], states[n + 1].folders[id];
            if id.lib in jobs && id in jobs[id.lib].known && id !in jobs[id.lib].entered
            then !row.missing && row' == row.(missing := true, updatedAt := states[n + 1].clock)
            else row' == row
  {
    RunsAreValid(states, events, n);
    RunStep(states, events, n);
    FinalizeMarks(states[n], id);
  }

  lemma FinalizeMarks(s: State, id: FolderId)
    requires ScanValid(s) && Enabled(s, Finalize(true)) && id in s.folders
    ensures id in Apply(s, Finalize(true)).folders
    ensures var jobs, row, row' := s.process.value.jobs, s.folders[id], Apply(s, Finalize(true)).folders[id];
            if id.lib in jobs && id in jobs[id.lib].known && id !in jobs[id.lib].entered
            then !row.missing && row' == row.(missing := true, updatedAt := s.clock + 1)
            else row' == row
  {
    hide RecentIsImported, PresentIsAccounted, EmittedIsImported, Clocked, LibsValid, Leftover;
    LeftoverIs(s.libs, s.process.value, id);
    UnmetIsPresent(s.folders, s.process.value, id);
    hide ProcessValid, JobsValid, UnmetUnchanged;
  }

  /** What is left over when the walk is over: the known folders it never entered. */
  lemma LeftoverIs(libs: map<int, Library>, p: Process, id: FolderId)
    requires ProcessValid(libs, p) && JobsValid(libs, p)
    ensures id in Leftover(p.jobs) <==> id.lib in p.jobs && id in p.jobs[id.lib].lastUpdates
    ensures id.lib in p.jobs ==>
              (id in p.jobs[id.lib].lastUpdates <==> id in p.jobs[id.lib].known && id !in p.jobs[id.lib].entered)
  {
    forall lib | lib in p.jobs && id in p.jobs[lib].lastUpdates
      ensures id.lib == lib
    {
      assert JobValid(libs, p, lib);
      assert id in p.jobs[lib].known;
    }
    if id.lib in p.jobs {
      assert JobValid(libs, p, id.lib);
      UnmetIsLeftover(p.jobs, id);
    }
  }

  lemma UnmetIsPresent(folders: map<FolderId, Folder>, p: Process, id: FolderId)
    requires UnmetUnchanged(folders, p) && p.stage.Scanning?
    ensures id.lib in p.jobs && id in p.jobs[id.lib].lastUpdates ==> id in folders && !folders[id].missing
  {
  }

  /** After phase 1 of a scan of whole libraries, the folders present are the ones the walk entered. */
  lemma PresentIsEntered(states: seq<State>, events: seq<Event>, n: nat, id: FolderId)
    requires IsRun(states, events) && n < |events| && events[n] == Finalize(true)
    requires var p := states[n].process.value; !p.failed && !p.selective && id.lib in p.jobs
    requires id in states[n].folders
    ensures !states[n + 1].folders[id].missing <==>
              !states[n].folders[id].missing && id in states[n].process.value.jobs[id.lib].entered
  {
    MissingIsExact(states, events, n, id);
    RunsAreValid(states, events, n);
    RunsAreValid(states, events, n + 1);
    RunStep(states, events, n);
    FinalizeKeepsJobs(states[n]);
  }

  lemma FinalizeKeepsJobs(s: State)
    requires Enabled(s, Finalize(true)) && !s.process.value.failed
    ensures var p, p' := s.process.value, Apply(s, Finalize(true)).process;
            p'.Some? && p'.value.jobs == p.jobs && p'.value.selective == p.selective
            && !p'.value.failed && p'.value.stage.Refreshing?
  {
  }

  function Ids(lib: int, found: seq<Found>): set<FolderId> {
    set f | f in found :: FolderId(lib, f.path)
  }

  /** The walk of a job has been through the first m of the folders it finds. */
  predicate Visited(job: Job, lib: int, found: seq<Found>, m: nat) {
    m <= |found| && job.walk == Some(found[m..]) && job.entered == Ids(lib, found[..m])
  }

  lemma WalkIsStarted(s: State, lib: int, found: seq<Found>)
    requires ScanValid(s) && Enabled(s, StartWalk(lib, found))
    ensures var p := Apply(s, StartWalk(lib, found)).process;
            p.Some? && lib in p.value.jobs && Visited(p.value.jobs[lib], lib, found, 0)
  {
    hide RecentIsImported, UnmetUnchanged, PresentIsAccounted, EmittedIsImported, Clocked, LibsValid;
    assert JobValid(s.libs, s.process.value, lib);
    assert found[0..] == found;
  }

  lemma WalkGoesOn(s: State, e: Event, lib: int, found: seq<Found>, m: nat)
    requires ScanValid(s) && Enabled(s, e) && s.process.Some? && Apply(s, e).process.Some?
    requires lib in s.process.value.jobs && Visited(s.process.value.jobs[lib], lib, found, m)
    ensures lib in Apply(s, e).process.value.jobs
    ensures Visited(Apply(s, e).process.value.jobs[lib], lib, found, if e == Visit(lib) then m + 1 else m)
  {
    hide RecentIsImported, UnmetUnchanged, PresentIsAccounted, EmittedIsImported, Clocked, LibsValid, JobValid, NewQueue;
    if e == Visit(lib) {
      assert found[m..][1..] == found[m + 1..];
      assert found[..m + 1] == found[..m] + [found[m]];
    } else {
      hide Ids;
      OtherJobKept(s, e, lib);
    }
  }

  lemma {:induction false} WalkIsInOrder(states: seq<State>, events: seq<Event>, w: nat, n: nat, lib: int, found: seq<Found>)
      returns (m: nat)
    requires IsRun(states, events) && w < n <= |events| && events[w] == StartWalk(lib, found)
    requires forall k :: w < k <= n ==> states[k].process.Some?
    ensures lib in states[n].process.value.jobs && Visited(states[n].process.value.jobs[lib], lib, found, m)
  {
    hide Apply, Enabled, Init, ScanValid, Visited;
    RunsAreValid(states, events, n - 1);
    RunStep(states, events, n - 1);
    if n == w + 1 {
      WalkIsStarted(states[w], lib, found);
      m := 0;
    } else {
      m := WalkIsInOrder(states, events, w, n - 1, lib, found);
      WalkGoesOn(states[n - 1], events[n - 1], lib, found, m);
      m := if events[n - 1] == Visit(lib) then m + 1 else m;
    }
  }

  /**
   A folder that is there to be found is marked as missing if and only if it was known and the
   walk had not come to it when phase 1 was finalized; the walk had come to all of them unless
   phase 1 failed.
   */
  lemma FoundIsMarkedIff(states: seq<State>, events: seq<Event>, w: nat, n: nat, lib: int, found: seq<Found>, k: nat)
    requires IsRun(states, events) && w < n < |events|
    requires events[w] == StartWalk(lib, found) && events[n] == Finalize(true) && k < |found|
    requires forall i :: w < i <= n ==> states[i].process.Some?
    requires FolderId(lib, found[k].path) in states[n].folders
    ensures lib in states[n].process.value.jobs && states[n].process.value.jobs[lib].walk.Some?
    ensures var id, job := FolderId(lib, found[k].path), states[n].process.value.jobs[lib];
            var visited := |found| - |job.walk.value|;
            && id in states[n + 1].folders
            && (states[n + 1].folders[id] != states[n].folders[id] <==>
                  id in job.known && forall i :: 0 <= i < visited ==> found[i].path != found[k].path)
            && (!states[n].process.value.failed ==> visited == |found|)
  {
    var m := WalkIsInOrder(states, events, w, n, lib, found);
    var id := FolderId(lib, found[k].path);
    MissingIsExact(states, events, n, id);
    RunStep(states, events, n);
    if !states[n].process.value.failed {
      FinalizeIsAfterWalks(states[n]);
    }
    hide Apply, Enabled, Init;
    assert states[n].process.value.jobs[lib].walk.value == found[m..];
    assert id in Ids(lib, found[..m]) <==> exists i :: 0 <= i < m && found[..m][i].path == found[k].path;
  }

  lemma FinalizeIsAfterWalks(s: State)
    requires Enabled(s, Finalize(true)) && !s.process.value.failed
    ensures forall lib :: lib in s.process.value.jobs ==> s.process.value.jobs[lib].Walked()
  {
  }

  // ----- Touched albums -----

  ghost predicate TouchesAreImports(s: State) {
    forall id :: id in s.albums && id in s.history.touched ==> s.albums[id].importedAt >= s.history.touched[id]
  }

  /** Phase 3 has been offered the touched albums of the libraries it has read. */
  ghost predicate ReadIsOffered(s: State) {
    s.process.Some? && s.process.value.stage.Refreshing? && !s.process.value.failed ==>
      forall id :: id in s.albums && s.albums[id].lib in s.process.value.libs - s.process.value.stage.unread
                   && s.albums[id].lib in s.libs && At(s.history.touched, id) > s.libs[s.albums[id].lib].lastScanAt ==>
                     At(s.history.offered, id) > At(s.history.touched, id)
  }

  ghost predicate TouchValid(s: State) {
    && TouchesAreImports(s) && ReadIsOffered(s)
    && forall lib :: lib in s.libs ==> s.libs[lib].lastScanAt >= 0
  }

  lemma TouchesAreImportsStep(s: State, e: Event)
    requires ScanValid(s) && TouchValid(s) && Enabled(s, e)
    ensures TouchesAreImports(Apply(s, e))
  {
  }

  lemma ReadIsOfferedStep(s: State, e: Event)
    requires ScanValid(s) && TouchValid(s) && Enabled(s, e)
    ensures ReadIsOffered(Apply(s, e))
  {
    hide RecentIsImported, UnmetUnchanged, PresentIsAccounted, EmittedIsImported;
  }

  lemma TouchStep(s: State, e: Event)
    requires ScanValid(s) && TouchValid(s) && Enabled(s, e)
    ensures TouchValid(Apply(s, e))
  {
    TouchesAreImportsStep(s, e);
    ReadIsOfferedStep(s, e);
    hide NewProcess, NewFolders, NewAlbums, NewHistory, ScanValid, ReadIsOffered, TouchesAreImports;
  }

  lemma {:induction false} RunsKeepTouches(states: seq<State>, events: seq<Event>, n: nat)
    requires IsRun(states, events) && n < |states|
    ensures TouchValid(states[n])
  {
    hide Apply, Enabled, ScanValid;
    if n > 0 {
      RunsKeepTouches(states, events, n - 1);
      RunsAreValid(states, events, n - 1);
      RunStep(states, events, n - 1);
      TouchStep(states[n - 1], events[n - 1]);
    }
  }

  /** The event puts or touches the album: its import time becomes the time of the event. */
  predicate Touches(s: State, e: Event, id: string) {
    && Enabled(s, e)
    && match e {
         case Persist(_, puts, touches, ok) => ok && (id in puts || (id in touches && id in s.albums))
         case Finalize(ok) =>
           && ok && id in s.albums
           && (exists lib, f :: lib in s.process.value.jobs && f in s.process.value.jobs[lib].lastUpdates)
           && exists f :: f in s.albums[id].folders && f in Apply(s, e).folders && Apply(s, e).folders[f].missing
         case _ => false
       }
  }

  lemma FinalizeTouches(s: State, id: string)
    requires Touches(s, Finalize(true), id)
    ensures Leftover(s.process.value.jobs) != {} && HasMissingFolder(s.albums[id], NewFolders(s, Finalize(true), s.clock + 1))
  {
    hide MarkMissing, NewHistory, NewAlbums, NewProcess;
    var jobs := s.process.value.jobs;
    var lib, f :| lib in jobs && f in jobs[lib].lastUpdates;
    assert f in Leftover(jobs);
  }

  lemma TouchIsRecorded(s: State, e: Event, id: string)
    requires Touches(s, e, id)
    ensures At(Apply(s, e).history.touched, id) == Apply(s, e).clock
    ensures id in Apply(s, e).albums && Apply(s, e).albums[id].importedAt == Apply(s, e).clock
  {
    if e.Finalize? {
      FinalizeTouches(s, id);
    }
    hide HasMissingFolder, Leftover;
  }

  /** The time of the last touch never goes back, and the end of the last scan changes only when a scan ends. */
  lemma TouchesGrow(s: State, e: Event, id: string, lib: int)
    requires ScanValid(s) && Enabled(s, e) && lib in s.libs && !Ends(s, e, lib)
    ensures At(Apply(s, e).history.touched, id) >= At(s.history.touched, id)
    ensures lib in Apply(s, e).libs && Apply(s, e).libs[lib].lastScanAt == s.libs[lib].lastScanAt
  {
    hide NewProcess;
  }

  lemma {:induction false} TouchesGrowInRun(states: seq<State>, events: seq<Event>, i: nat, j: nat, id: string, lib: int)
    requires IsRun(states, events) && i <= j <= |events| && NotEnded(states, events, i, j, lib)
    requires lib in states[i].libs
    ensures At(states[j].history.touched, id) >= At(states[i].history.touched, id)
    ensures lib in states[j].libs && states[j].libs[lib].lastScanAt == states[i].libs[lib].lastScanAt
  {
    hide Apply, Enabled, ScanValid;
    if i < j {
      TouchesGrowInRun(states, events, i, j - 1, id, lib);
      RunsAreValid(states, events, j - 1);
      RunStep(states, events, j - 1);
      TouchesGrow(states[j - 1], events[j - 1], id, lib);
    }
  }

  /**
   No touch is lost: when phase 1 puts or touches an album at event i and the next scan of its
   library to end does so at event j, then phase 3 has been offered the album after the touch,
   whether that was in the same process or, after crashes, in a later one.
   */
  lemma TouchIsNeverLost(states: seq<State>, events: seq<Event>, i: nat, j: nat, id: string)
    requires IsRun(states, events) && i < j < |events| && Touches(states[i], events[i], id)
    requires id in states[j].albums && Ends(states[j], events[j], states[j].albums[id].lib)
    requires NotEnded(states, events, i, j, states[j].albums[id].lib)
    ensures exists k :: i < k < j && Offers(states[k], events[k], id)
  {
    OffersAreEvents(states, events, i, j, id);
    hide Apply, Enabled, ScanValid, Touches, Offers;
    var lib := states[j].albums[id].lib;
    LibrariesStay(states, events, i, j);
    EndedIsKnown(states, events, j, lib);
    RunStep(states, events, i);
    TouchIsRecorded(states[i], events[i], id);
    TouchesGrowInRun(states, events, i, i + 1, id, lib);
    TouchesGrowInRun(states, events, i + 1, j, id, lib);
    RunsAreValid(states, events, i);
    LastScanIsPast(states[i], events[i], lib);
    RunsKeepTouches(states, events, j);
    RunStep(states, events, j);
    EndingHasRead(states[j]);
  }

  lemma {:induction false} LibrariesStay(states: seq<State>, events: seq<Event>, i: nat, j: nat)
    requires IsRun(states, events) && i <= j <= |events|
    ensures states[j].libs.Keys == states[i].libs.Keys
  {
    hide Enabled, Init, NewFolders, NewAlbums, NewProcess, NewHistory;
    if i < j {
      LibrariesStay(states, events, i, j - 1);
      RunStep(states, events, j - 1);
    }
  }

  lemma EndedIsKnown(states: seq<State>, events: seq<Event>, j: nat, lib: int)
    requires IsRun(states, events) && j < |events| && Ends(states[j], events[j], lib)
    ensures lib in states[j].libs
  {
    RunsAreValid(states, events, j);
  }

  /** Phase 3 reads the album: its import time is later than the end of the library's last scan. */
  predicate Offers(s: State, e: Event, id: string) {
    && e.ReadTouched? && id in s.albums && s.albums[id].lib == e.lib
    && e.lib in s.libs && s.albums[id].importedAt > s.libs[e.lib].lastScanAt
  }

  lemma OfferStep(s: State, e: Event, id: string)
    requires Enabled(s, e)
    ensures At(Apply(s, e).history.offered, id) == if Offers(s, e, id) then Apply(s, e).clock else At(s.history.offered, id)
  {
    hide NewLibs, NewFolders, NewAlbums, NewProcess;
  }

  lemma NothingOffered(s: State, id: string)
    requires Init(s)
    ensures At(s.history.offered, id) == 0
  {
  }

  lemma {:induction false} OffersAreEvents(states: seq<State>, events: seq<Event>, i: nat, j: nat, id: string)
    requires IsRun(states, events) && i < |events| && j <= |events|
    ensures At(states[j].history.offered, id) > states[i + 1].clock <==>
              exists k :: i < k < j && Offers(states[k], events[k], id)
  {
    hide Apply, Enabled, Init, Offers;
    ClockCounts(states, events, i + 1);
    ClockCounts(states, events, j);
    if j == 0 {
      NothingOffered(states[0], id);
    } else {
      OffersAreEvents(states, events, i, j - 1, id);
      RunStep(states, events, j - 1);
      OfferStep(states[j - 1], events[j - 1], id);
    }
  }

  lemma LastScanIsPast(s: State, e: Event, lib: int)
    requires ScanValid(s) && Enabled(s, e) && lib in s.libs
    ensures s.libs[lib].lastScanAt < Apply(s, e).clock
  {
  }

  lemma EndingHasRead(s: State)
    requires Enabled(s, ScanEnd)
    ensures s.process.Some? && s.process.value.stage.Refreshing? && !s.process.value.failed && s.process.value.stage.unread == {}
  {
  }

  /** Conversely, right after a scan of its library has ended, no album is due to be offered. */
  lemma NothingIsDueAfterEnd(states: seq<State>, events: seq<Event>, j: nat, lib: int)
    requires IsRun(states, events) && j < |events| && Ends(states[j], events[j], lib)
    ensures lib in states[j + 1].libs && TouchedAlbums(states[j + 1].libs, states[j + 1].albums, lib) == {}
  {
    RunsAreValid(states, events, j);
    RunStep(states, events, j);
  }
}
