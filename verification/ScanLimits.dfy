/**
 The conditions of ScanImports fail in runs that do occur: for each of them a run, on one
 library with one folder, in which a scan is marked as completed without it.
 */
module ScanLimits {
  import opened Options
  import opened ScanModel
  import opened ScanSafety
  import opened ScanRuns
  import opened ScanImports

  const FOLDER := FolderId(1, "album")
  const FOUND := Found("album", "new", false, true)
  const NO_HISTORY := History(map[], map[], map[])

  /** One library, one folder, no albums. */
  function Small(clock: int, lib: Library, folder: Folder, process: Option<Process>): State {
    State(clock, map[1 := lib], map[FOLDER := folder], map[], process, NO_HISTORY)
  }

  function Starting(full: bool, selective: bool, jobs: map<int, Job>, queue: multiset<Entry>, stage: Stage): Option<Process> {
    Some(Process(full, selective, {1}, jobs, queue, stage, false))
  }

  lemma Extend(states: seq<State>, events: seq<Event>, e: Event, s': State)
    requires IsRun(states, events) && Enabled(states[|events|], e) && s' == Apply(states[|events|], e)
    ensures IsRun(states + [s'], events + [e])
  {
    hide Apply, Enabled, Init;
  }

  /** One more event. */
  lemma Further(states: seq<State>, events: seq<Event>, e: Event, s': State) returns (states': seq<State>, events': seq<Event>)
    requires IsRun(states, events) && |states| == |events| + 1 && Enabled(states[|events|], e) && s' == Apply(states[|events|], e)
    ensures IsRun(states', events') && states' == states + [s'] && events' == events + [e]
    ensures |states'| == |events'| + 1 && states'[|events'|] == s' && states <= states'
  {
    hide Apply, Enabled, Init, IsRun;
    Extend(states, events, e, s');
    states', events' := states + [s'], events + [e];
  }

  // ----- The steps of the runs -----

  lemma Beginning(clock: int, lib: Library, folder: Folder, requested: bool, targets: Option<set<int>>)
    requires targets == None || targets == Some({1})
    ensures var s, e := Small(clock, lib, folder, None), Begin(requested, targets);
            Enabled(s, e) && Apply(s, e) == Small(clock + 1, lib, folder,
              Starting(requested || lib.full, targets.Some?, map[], multiset{}, Preparing({1})))
  {
    var s := Small(clock, lib, folder, None);
    assert 1 in s.libs && Targeted(s.libs, targets) == {1};
  }

  lemma Preparation(clock: int, lib: Library, folder: Folder, full: bool, selective: bool)
    requires !lib.isVirtual
    ensures var s := Small(clock, lib, folder, Starting(full, selective, map[], multiset{}, Preparing({1})));
            var lib' := if lib.startedAt == 0 then Started(lib, full, clock + 1) else lib;
            var s' := Small(clock + 1, lib', folder, Starting(full, selective, map[], multiset{}, Preparing({})));
            && Enabled(s, PrepareLibrary(1, BeginOutcome.Begun)) && Apply(s, PrepareLibrary(1, BeginOutcome.Begun)) == s'
            && Enabled(s', Prepared) && Apply(s', Prepared) ==
                 Small(clock + 2, lib', folder, Starting(full, selective, map[], multiset{}, Scanning({1})))
  {
    var s := Small(clock, lib, folder, Starting(full, selective, map[], multiset{}, Preparing({1})));
    assert {1} - {1} == {};
    assert s.libs[1 := Started(lib, full, clock + 1)] == map[1 := Started(lib, full, clock + 1)];
  }

  lemma Crashing(clock: int, lib: Library, folder: Folder, p: Process)
    ensures var s := Small(clock, lib, folder, Some(p));
            Enabled(s, Crash) && Apply(s, Crash) == Small(clock + 1, lib, folder, None)
  {
  }

  lemma Finalizing(clock: int, lib: Library, folder: Folder, full: bool, selective: bool, jobs: map<int, Job>)
    requires forall id :: id in jobs ==> jobs[id].Walked() && jobs[id].lastUpdates == map[]
    ensures var s := Small(clock, lib, folder, Starting(full, selective, jobs, multiset{}, Scanning({})));
            Enabled(s, Finalize(true)) && Apply(s, Finalize(true)) ==
              Small(clock + 1, lib, folder, Starting(full, selective, jobs, multiset{}, Refreshing({1})))
  {
    var s := Small(clock, lib, folder, Starting(full, selective, jobs, multiset{}, Scanning({})));
    assert Leftover(jobs) == {};
    assert MarkMissing(s.folders, {}, clock + 1) == s.folders;
  }

  lemma Reading(clock: int, lib: Library, folder: Folder, full: bool, selective: bool, jobs: map<int, Job>)
    ensures var s := Small(clock, lib, folder, Starting(full, selective, jobs, multiset{}, Refreshing({1})));
            Enabled(s, ReadTouched(1)) && Apply(s, ReadTouched(1)) ==
              Small(clock + 1, lib, folder, Starting(full, selective, jobs, multiset{}, Refreshing({})))
  {
    var s := Small(clock, lib, folder, Starting(full, selective, jobs, multiset{}, Refreshing({1})));
    assert {1} - {1} == {};
    assert TouchedAlbums(s.libs, s.albums, 1) == {};
    assert Stamp(s.history.offered, {}, clock + 1) == s.history.offered;
  }

  lemma LastStep(clock: int, lib: Library, folder: Folder, full: bool, selective: bool, jobs: map<int, Job>)
    ensures var s := Small(clock, lib, folder, Starting(full, selective, jobs, multiset{}, Refreshing({})));
            Enabled(s, ScanEnd) && Apply(s, ScanEnd) == Small(clock + 1, Ended(lib, clock + 1), folder, None)
  {
    var s := Small(clock, lib, folder, Starting(full, selective, jobs, multiset{}, Refreshing({})));
    assert NewLibs(s, ScanEnd, clock + 1) == map[1 := Ended(lib, clock + 1)];
  }

  /** From a finished phase 1 to the end of the scan. */
  lemma Finish(states: seq<State>, events: seq<Event>, clock: int, lib: Library, folder: Folder, full: bool, selective: bool, jobs: map<int, Job>)
      returns (states': seq<State>, events': seq<Event>)
    requires IsRun(states, events)
    requires states[|events|] == Small(clock, lib, folder, Starting(full, selective, jobs, multiset{}, Scanning({})))
    requires forall id :: id in jobs ==> jobs[id].Walked() && jobs[id].lastUpdates == map[]
    ensures IsRun(states', events') && |states'| == |events'| + 1 == |events| + 4
    ensures events' == events + [Finalize(true), ReadTouched(1), ScanEnd] && states <= states'
    ensures states'[|events| + 2] == Small(clock + 2, lib, folder, Starting(full, selective, jobs, multiset{}, Refreshing({})))
    ensures states'[|events| + 3] == Small(clock + 3, Ended(lib, clock + 3), folder, None)
  {
    hide Apply, Enabled, Init, Small, IsRun;
    Finalizing(clock, lib, folder, full, selective, jobs);
    Reading(clock + 1, lib, folder, full, selective, jobs);
    LastStep(clock + 2, lib, folder, full, selective, jobs);
    var s1 := Small(clock + 1, lib, folder, Starting(full, selective, jobs, multiset{}, Refreshing({1})));
    var s2 := Small(clock + 2, lib, folder, Starting(full, selective, jobs, multiset{}, Refreshing({})));
    var s3 := Small(clock + 3, Ended(lib, clock + 3), folder, None);
    RunLength(states, events);
    states', events' := Further(states, events, Finalize(true), s1);
    states', events' := Further(states', events', ReadTouched(1), s2);
    states', events' := Further(states', events', ScanEnd, s3);
  }

  lemma RunLength(states: seq<State>, events: seq<Event>)
    requires IsRun(states, events)
    ensures |states| == |events| + 1
  {
    hide Apply, Enabled, Init;
  }

  /** From an idle scanner to the point where the jobs are to be created. */
  lemma Prepare(states: seq<State>, events: seq<Event>, clock: int, lib: Library, folder: Folder, requested: bool, targets: Option<set<int>>)
      returns (states': seq<State>, events': seq<Event>)
    requires IsRun(states, events) && states[|events|] == Small(clock, lib, folder, None)
    requires !lib.isVirtual && (targets == None || targets == Some({1}))
    ensures IsRun(states', events') && |states'| == |events'| + 1 == |events| + 4
    ensures events' == events + [Begin(requested, targets), PrepareLibrary(1, BeginOutcome.Begun), Prepared] && states <= states'
    ensures states'[|events| + 1] == Small(clock + 1, lib, folder,
              Starting(requested || lib.full, targets.Some?, map[], multiset{}, Preparing({1})))
    ensures var full, lib' := requested || lib.full, if lib.startedAt == 0 then Started(lib, requested || lib.full, clock + 2) else lib;
            states'[|events'|] == Small(clock + 3, lib', folder, Starting(full, targets.Some?, map[], multiset{}, Scanning({1})))
  {
    hide Apply, Enabled, Init, Small, IsRun;
    var full, selective := requested || lib.full, targets.Some?;
    var lib' := if lib.startedAt == 0 then Started(lib, full, clock + 2) else lib;
    Beginning(clock, lib, folder, requested, targets);
    Preparation(clock + 1, lib, folder, full, selective);
    var s1 := Small(clock + 1, lib, folder, Starting(full, selective, map[], multiset{}, Preparing({1})));
    var s2 := Small(clock + 2, lib', folder, Starting(full, selective, map[], multiset{}, Preparing({})));
    var s3 := Small(clock + 3, lib', folder, Starting(full, selective, map[], multiset{}, Scanning({1})));
    var e1, e2, e3 := Begin(requested, targets), PrepareLibrary(1, BeginOutcome.Begun), Prepared;
    RunLength(states, events);
    states', events' := Further(states, events, e1, s1);
    states', events' := Further(states', events', e2, s2);
    states', events' := Further(states', events', e3, s3);
  }

  // ----- What the job of a library does -----

  /** A job of one library that knows the folder or, in a selective scan elsewhere, does not. */
  function JobOf(lib: Library, folder: Folder, full: bool, knows: bool): Job {
    Job(lib.startedAt, lib.full || full,
        if knows then map[FOLDER := Info(folder.updatedAt, folder.hash)] else map[], None, if knows then {FOLDER} else {}, {}, {})
  }

  lemma JobCreated(clock: int, lib: Library, folder: Folder, full: bool, selective: bool)
    requires !folder.missing
    ensures var s, e := Small(clock, lib, folder, Starting(full, selective, map[], multiset{}, Scanning({1}))), CreateJob(1, true, {});
            Enabled(s, e) && Apply(s, e) == Small(clock + 1, lib, folder,
              Starting(full, selective, map[1 := JobOf(lib, folder, full, !selective)], multiset{}, Scanning({})))
  {
    var s := Small(clock, lib, folder, Starting(full, selective, map[], multiset{}, Scanning({1})));
    assert {1} - {1} == {};
    assert KnownFolders(s.folders, 1, selective, {}) ==
           if selective then map[] else map[FOLDER := Info(folder.updatedAt, folder.hash)];
    assert map[FOLDER := Info(folder.updatedAt, folder.hash)].Keys == {FOLDER};
    var job := JobOf(lib, folder, full, !selective);
    assert NewJob(s, CreateJob(1, true, {})) == job;
    assert s.process.value.jobs[1 := job] == map[1 := job];
  }

  lemma WalkStarts(clock: int, lib: Library, folder: Folder, full: bool, selective: bool, job: Job, found: seq<Found>)
    requires job.walk.None?
    ensures var s, e := Small(clock, lib, folder, Starting(full, selective, map[1 := job], multiset{}, Scanning({}))), StartWalk(1, found);
            Enabled(s, e) && Apply(s, e) == Small(clock + 1, lib, folder,
              Starting(full, selective, map[1 := job.(walk := Some(found))], multiset{}, Scanning({})))
  {
    assert map[1 := job][1 := job.(walk := Some(found))] == map[1 := job.(walk := Some(found))];
  }

  /** The walk meets the folder, which is put on the pipeline unless it is up to date. */
  lemma FolderMet(clock: int, lib: Library, folder: Folder, full: bool, job: Job)
    requires job == JobOf(lib, folder, full, true).(walk := Some([FOUND]))
    ensures var s := Small(clock, lib, folder, Starting(full, false, map[1 := job], multiset{}, Scanning({})));
            var met := job.(lastUpdates := map[], walk := Some([]), entered := {FOLDER}, emitted := {FOLDER});
            var queue := if Outdated(job, Info(folder.updatedAt, folder.hash), FOUND.hash) && (full || folder.updatedAt != 0 || !FOUND.noFiles)
                         then multiset{Entry(FOLDER, FOUND.hash)} else multiset{};
            Enabled(s, Visit(1)) && Apply(s, Visit(1)) ==
              Small(clock + 1, lib, folder, Starting(full, false, map[1 := met], queue, Scanning({})))
  {
    var met := job.(lastUpdates := map[], walk := Some([]), entered := {FOLDER}, emitted := {FOLDER});
    assert job.lastUpdates - {FOLDER} == map[];
    assert map[1 := job][1 := met] == map[1 := met];
    assert {} + {FOLDER} == {FOLDER};
    assert [FOUND][1..] == [];
    var s := Small(clock, lib, folder, Starting(full, false, map[1 := job], multiset{}, Scanning({})));
    assert NewJob(s, Visit(1)) == met;
    assert multiset{} + multiset{Entry(FOLDER, FOUND.hash)} == multiset{Entry(FOLDER, FOUND.hash)};
    assert LastUpdate(job, FOLDER) == Info(folder.updatedAt, folder.hash);
    assert NewQueue(s, Visit(1)) == if Puts(full, job, LastUpdate(job, FOLDER), FOUND) then multiset{Entry(FOLDER, FOUND.hash)} else multiset{};
  }

  lemma FolderPersistedQuick(clock: int, lib: Library, folder: Folder, jobs: map<int, Job>)
    ensures var entry := Entry(FOLDER, FOUND.hash);
            var s := Small(clock, lib, folder, Starting(false, false, jobs, multiset{entry}, Scanning({})));
            var e := Persist(entry, map[], {}, true);
            Enabled(s, e) && Apply(s, e) == Small(clock + 1, lib, Folder(clock + 1, FOUND.hash, false),
              Starting(false, false, jobs, multiset{}, Scanning({})))
  {
    var entry := Entry(FOLDER, FOUND.hash);
    var s := Small(clock, lib, folder, Starting(false, false, jobs, multiset{entry}, Scanning({})));
    var e := Persist(entry, map[], {}, true);
    assert entry in s.process.value.queue;
    assert s.folders[FOLDER := Folder(clock + 1, FOUND.hash, false)] == map[FOLDER := Folder(clock + 1, FOUND.hash, false)];
    assert PutAlbums(s.albums, 1, map[], {}, clock + 1) == s.albums;
    var none: map<string, set<FolderId>> := map[];
    assert none.Keys + {} * s.albums.Keys == {};
    assert Stamp(s.history.touched, {}, clock + 1) == s.history.touched;
    assert multiset{entry} - multiset{entry} == multiset{};
  }

  // ----- The runs -----

  const NEW_LIBRARY := Library(false, 0, false, 0)
  const OLD_FOLDER := Folder(1, "old", false)

  /** A full scan has begun and crashed. */
  lemma FullScanCrashed() returns (states: seq<State>, events: seq<Event>)
    ensures IsRun(states, events) && |states| == 5 && |events| == 4 && BeginsFull(states[1], events[1], 1)
    ensures !events[2].ScanEnd? && !events[3].ScanEnd?
    ensures states[2].clock == 3 && states[4] == Small(5, Library(false, 3, true, 0), OLD_FOLDER, None)
  {
    var s0 := Small(1, NEW_LIBRARY, OLD_FOLDER, None);
    assert IsRun([s0], []);
    states, events := Prepare([s0], [], 1, NEW_LIBRARY, OLD_FOLDER, true, None);
    RunStep(states, events, 1);
    var p := states[3].process.value;
    Crashing(4, Library(false, 3, true, 0), OLD_FOLDER, p);
    states, events := Further(states, events, Crash, Small(5, Library(false, 3, true, 0), OLD_FOLDER, None));
  }

  /** Two more steps: the job is created, and its walk starts. */
  lemma Walk(states: seq<State>, events: seq<Event>, clock: int, lib: Library, folder: Folder, full: bool, selective: bool, found: seq<Found>)
      returns (states': seq<State>, events': seq<Event>)
    requires IsRun(states, events) && !folder.missing
    requires states[|events|] == Small(clock, lib, folder, Starting(full, selective, map[], multiset{}, Scanning({1})))
    ensures IsRun(states', events') && |states'| == |events'| + 1 == |events| + 3
    ensures events' == events + [CreateJob(1, true, {}), StartWalk(1, found)] && states <= states'
    ensures states'[|events'|] == Small(clock + 2, lib, folder,
              Starting(full, selective, map[1 := JobOf(lib, folder, full, !selective).(walk := Some(found))], multiset{}, Scanning({})))
  {
    hide Apply, Enabled, Init, Small, IsRun;
    var job := JobOf(lib, folder, full, !selective);
    JobCreated(clock, lib, folder, full, selective);
    WalkStarts(clock + 1, lib, folder, full, selective, job, found);
    var s1 := Small(clock + 1, lib, folder, Starting(full, selective, map[1 := job], multiset{}, Scanning({})));
    var s2 := Small(clock + 2, lib, folder, Starting(full, selective, map[1 := job.(walk := Some(found))], multiset{}, Scanning({})));
    RunLength(states, events);
    states', events' := Further(states, events, CreateJob(1, true, {}), s1);
    states', events' := Further(states', events', StartWalk(1, found), s2);
  }

  /**
   A selective scan that resumes an interrupted full scan ends it, although a folder outside
   its targets has not been imported.
   */
  lemma SelectiveScanEndsFullScan() returns (states: seq<State>, events: seq<Event>, i: nat, j: nat)
    ensures IsRun(states, events) && i < j < |events| && BeginsFull(states[i], events[i], 1)
    ensures NotEnded(states, events, i, j, 1) && Ends(states[j], events[j], 1)
    ensures states[j].process.value.selective && 1 in states[j].process.value.jobs
    ensures FOLDER in states[j].folders && !states[j].folders[FOLDER].missing
    ensures states[j].folders[FOLDER].updatedAt < states[i + 1].clock
    ensures !ImportedSince(states, events, i, j, FOLDER)
  {
    var lib := Library(false, 3, true, 0);
    states, events := FullScanCrashed();
    hide Apply, Enabled, Init, IsRun, BeginsFull;
    states, events := Prepare(states, events, 5, lib, OLD_FOLDER, false, Some({1}));
    states, events := Walk(states, events, 8, lib, OLD_FOLDER, true, true, []);
    var jobs := map[1 := JobOf(lib, OLD_FOLDER, true, false).(walk := Some([]))];
    states, events := Finish(states, events, 10, lib, OLD_FOLDER, true, true, jobs);
    i, j := 1, 11;
    ImportedIff(states, events, i, j, 1, FOLDER);
  }

  function MetJob(lib: Library, folder: Folder, full: bool): Job {
    JobOf(lib, folder, full, true).(lastUpdates := map[], walk := Some([]), entered := {FOLDER}, emitted := {FOLDER})
  }

  /** A quick scan begins, and its walk starts. */
  lemma QuickScanWalking() returns (states: seq<State>, events: seq<Event>)
    ensures IsRun(states, events) && |states| == 6 && |events| == 5
    ensures states[5] == Small(6, Library(false, 3, false, 0), OLD_FOLDER, Starting(false, false,
              map[1 := JobOf(Library(false, 3, false, 0), OLD_FOLDER, false, true).(walk := Some([FOUND]))], multiset{}, Scanning({})))
  {
    var lib := Library(false, 3, false, 0);
    var s0 := Small(1, NEW_LIBRARY, OLD_FOLDER, None);
    assert IsRun([s0], []);
    hide Apply, Enabled, Init, IsRun;
    states, events := Prepare([s0], [], 1, NEW_LIBRARY, OLD_FOLDER, false, None);
    states, events := Walk(states, events, 4, lib, OLD_FOLDER, false, false, [FOUND]);
  }

  lemma QuickFolderMet()
    ensures var lib := Library(false, 3, false, 0);
            var s := Small(6, lib, OLD_FOLDER, Starting(false, false,
                       map[1 := JobOf(lib, OLD_FOLDER, false, true).(walk := Some([FOUND]))], multiset{}, Scanning({})));
            Enabled(s, Visit(1)) && Apply(s, Visit(1)) == Small(7, lib, OLD_FOLDER, Starting(false, false,
              map[1 := MetJob(lib, OLD_FOLDER, false)], multiset{Entry(FOLDER, FOUND.hash)}, Scanning({})))
  {
    var lib := Library(false, 3, false, 0);
    FolderMet(6, lib, OLD_FOLDER, false, JobOf(lib, OLD_FOLDER, false, true).(walk := Some([FOUND])));
    hide Apply, Enabled, Small;
  }

  /** The quick scan persists the folder and crashes. */
  lemma QuickScanCrashed() returns (states: seq<State>, events: seq<Event>)
    ensures IsRun(states, events) && |states| == 9 && |events| == 8
    ensures states[8] == Small(9, Library(false, 3, false, 0), Folder(8, "new", false), None)
  {
    hide Apply, Enabled, Init, IsRun, Small, JobOf, MetJob;
    var lib := Library(false, 3, false, 0);
    var entry, folder, jobs := Entry(FOLDER, FOUND.hash), Folder(8, "new", false), map[1 := MetJob(lib, OLD_FOLDER, false)];
    QuickFolderMet();
    FolderPersistedQuick(7, lib, OLD_FOLDER, jobs);
    var p := Starting(false, false, jobs, multiset{}, Scanning({})).value;
    Crashing(8, lib, folder, p);
    states, events := QuickScanWalking();
    var s1 := Small(7, lib, OLD_FOLDER, Starting(false, false, jobs, multiset{entry}, Scanning({})));
    states, events := Further(states, events, Visit(1), s1);
    states, events := Further(states, events, Persist(entry, map[], {}, true), Small(8, lib, folder, Some(p)));
    states, events := Further(states, events, Crash, Small(9, lib, folder, None));
  }

  /**
   A full scan that resumes an interrupted quick scan finds what the quick scan has persisted
   up to date, and does not import it again: the start is recorded only when a scan begins.
   */
  lemma FullScanResumesQuickScan() returns (states: seq<State>, events: seq<Event>, b: nat, v: nat, j: nat)
    ensures AtWork(states, events, b, j) && b < v < j < |events| && Ends(states[j], events[j], 1)
    ensures states[j].process.value.full && !states[j].process.value.failed && !states[j].process.value.selective
    ensures 1 in states[j].process.value.jobs && FOLDER in states[j].process.value.jobs[1].emitted
    ensures events[v] == Visit(1) && !FoundOutdated(states[v], events[v], FOLDER)
    ensures !ImportedSince(states, events, b, j, FOLDER)
  {
    var lib, folder := Library(false, 3, false, 0), Folder(8, "new", false);
    states, events := QuickScanCrashed();
    hide Apply, Enabled, Init, IsRun;
    states, events := Prepare(states, events, 9, lib, folder, true, None);
    states, events := Walk(states, events, 12, lib, folder, true, false, [FOUND]);
    var met := MetJob(lib, folder, true);
    FolderMet(14, lib, folder, true, JobOf(lib, folder, true, true).(walk := Some([FOUND])));
    var s1 := Small(15, lib, folder, Starting(true, false, map[1 := met], multiset{}, Scanning({})));
    states, events := Further(states, events, Visit(1), s1);
    states, events := Finish(states, events, 15, lib, folder, true, false, map[1 := met]);
    b, v, j := 8, 13, 16;
    OneProcess(states, events, b, j);
    FullProcessImportsIff(states, events, b, j, FOLDER);
  }

  lemma OneProcess(states: seq<State>, events: seq<Event>, b: nat, j: nat)
    requires IsRun(states, events) && b < j < |events| && events[b].Begin?
    requires forall k :: b < k <= j ==> !events[k].Begin?
    ensures AtWork(states, events, b, j)
  {
    hide Apply, Init;
  }
}
