/**
 The scanner's own steps, as methods on the fields they change: what a process keeps in
 memory and the rows it reads and writes. Each method is one event of the transition system,
 or a row of them.
 */
module ScanService {
  import opened Iteration
  import opened Options
  import opened ScanModel
  import opened ScanSafety

  ghost predicate Leads(s: State, events: seq<Event>, s': State)
    decreases |events|
  {
    if events == [] then s' == s
    else Enabled(s, events[0]) && Leads(Apply(s, events[0]), events[1..], s')
  }

  lemma {:induction false} LeadsFurther(s: State, events: seq<Event>, m: State, e: Event, s': State)
    requires Leads(s, events, m) && Enabled(m, e) && s' == Apply(m, e)
    ensures Leads(s, events + [e], s')
    decreases |events|
  {
    hide Apply, Enabled;
    if events == [] {
      assert events + [e] == [e];
      assert Leads(s', [], s');
    } else {
      LeadsFurther(Apply(s, events[0]), events[1..], m, e, s');
      assert (events + [e])[1..] == events[1..] + [e];
    }
  }

  lemma OneStep(s: State, e: Event, s': State)
    requires Enabled(s, e) && s' == Apply(s, e)
    ensures Leads(s, [e], s')
  {
    hide Apply, Enabled;
    assert Leads(s', [], s');
  }

  // ----- Statements that work in chunks -----

  const CHUNK := 200

  function Elements<T>(xs: seq<T>): set<T> {
    set x | x in xs
  }

  lemma MarkedInTurn(folders: map<FolderId, Folder>, first: set<FolderId>, second: set<FolderId>, now: int)
    ensures MarkMissing(MarkMissing(folders, first, now), second, now) == MarkMissing(folders, first + second, now)
  {
  }

  /** MarkMissing, at most 200 rows per statement: the same as one statement on all of them. */
  method MarkMissingInChunks(folders: map<FolderId, Folder>, ids: seq<FolderId>, now: int) returns (marked: map<FolderId, Folder>)
    ensures marked == MarkMissing(folders, Elements(ids), now)
  {
    var done := 0;
    marked := folders;
    assert MarkMissing(folders, Elements(ids[..0]), now) == folders;
    while done < |ids|
      invariant 0 <= done <= |ids|
      invariant marked == MarkMissing(folders, Elements(ids[..done]), now)
    {
      var end := if done + CHUNK < |ids| then done + CHUNK else |ids|;
      MarkedInTurn(folders, Elements(ids[..done]), Elements(ids[done..end]), now);
      assert ids[..end] == ids[..done] + ids[done..end];
      assert Elements(ids[..end]) == Elements(ids[..done]) + Elements(ids[done..end]);
      marked := MarkMissing(marked, Elements(ids[done..end]), now);
      done := end;
    }
    assert ids[..|ids|] == ids;
  }

  // ----- finalize, job by job -----

  function LeftoverOf(jobs: map<int, Job>, done: set<int>): set<FolderId> {
    set lib, id | lib in done && lib in jobs && id in jobs[lib].lastUpdates :: id
  }

  /** The table as finalize leaves it once it has been through the jobs in done. */
  ghost predicate FinalizedSoFar(
    jobs: map<int, Job>, done: set<int>, now: int,
    folders: map<FolderId, Folder>, folders': map<FolderId, Folder>, albums: map<string, Album>, albums': map<string, Album>)
  {
    var left := LeftoverOf(jobs, done);
    && folders' == MarkMissing(folders, left, now)
    && albums' == if left == {} then albums else TouchByMissingFolder(albums, folders', now)
  }

  /** Albums touched for one job stay touched for the next: missing folders stay missing. */
  lemma TouchedInTurn(albums: map<string, Album>, folders: map<FolderId, Folder>, ids: set<FolderId>, now: int)
    ensures TouchByMissingFolder(TouchByMissingFolder(albums, folders, now), MarkMissing(folders, ids, now), now)
            == TouchByMissingFolder(albums, MarkMissing(folders, ids, now), now)
  {
    var marked := MarkMissing(folders, ids, now);
    forall id | id in albums && HasMissingFolder(albums[id], folders)
      ensures HasMissingFolder(albums[id], marked)
    {
      var f :| f in albums[id].folders && f in folders && folders[f].missing;
      assert f in marked && marked[f].missing;
    }
    forall id | id in albums
      ensures HasMissingFolder(albums[id].(importedAt := now), marked) == HasMissingFolder(albums[id], marked)
    {
      SameFolders(albums[id], albums[id].(importedAt := now), marked);
    }
  }

  lemma SameFolders(a: Album, b: Album, folders: map<FolderId, Folder>)
    requires a.folders == b.folders
    ensures HasMissingFolder(a, folders) == HasMissingFolder(b, folders)
  {
  }

  lemma NextJobFinalized(
    jobs: map<int, Job>, done: set<int>, lib: int, now: int,
    folders: map<FolderId, Folder>, folders1: map<FolderId, Folder>, albums: map<string, Album>, albums1: map<string, Album>)
    requires FinalizedSoFar(jobs, done, now, folders, folders1, albums, albums1) && lib in jobs
    ensures var ids := jobs[lib].lastUpdates.Keys;
            var folders2 := if ids == {} then folders1 else MarkMissing(folders1, ids, now);
            var albums2 := if ids == {} then albums1 else TouchByMissingFolder(albums1, folders2, now);
            FinalizedSoFar(jobs, done + {lib}, now, folders, folders2, albums, albums2)
  {
    var left, ids := LeftoverOf(jobs, done), jobs[lib].lastUpdates.Keys;
    assert LeftoverOf(jobs, done + {lib}) == left + ids;
    if ids == {} {
      assert left + ids == left;
    } else {
      hide TouchByMissingFolder, LeftoverOf, MarkMissing;
      MarkedInTurn(folders, left, ids, now);
      if left != {} {
        TouchedInTurn(albums, folders1, ids, now);
      }
    }
  }

  // ----- The events that the methods perform, spelled out -----

  lemma BeginApplies(s: State, requested: bool, targets: Option<set<int>>)
    requires s.process.None?
    ensures var e, libs := Begin(requested, targets), Targeted(s.libs, targets);
            Enabled(s, e) && Apply(s, e) == s.(clock := s.clock + 1, process := Some(Process(
              FullMode(s.libs, libs, requested), targets.Some?, libs, map[], multiset{}, Preparing(libs), false)))
  {
  }

  lemma PrepareApplies(s: State, lib: int, outcome: BeginOutcome)
    requires s.process.Some? && s.process.value.stage.Preparing?
    requires lib in s.process.value.stage.todo && lib in s.libs
    ensures var e, p := PrepareLibrary(lib, outcome), s.process.value;
            Enabled(s, e) && Apply(s, e) == s.(
              clock := s.clock + 1,
              libs := if Begins(s, lib, outcome) then s.libs[lib := Started(s.libs[lib], p.full, s.clock + 1)] else s.libs,
              process := Some(p.(libs := if Keeps(s.libs[lib], outcome) then p.libs else p.libs - {lib},
                                 stage := Preparing(p.stage.todo - {lib}))))
  {
  }

  lemma PreparedApplies(s: State)
    requires s.process.Some? && s.process.value.stage == Preparing({})
    ensures var p := s.process.value;
            Enabled(s, Prepared) && Apply(s, Prepared) == s.(
              clock := s.clock + 1, process := if p.libs == {} then None else Some(p.(stage := Scanning(p.libs))))
  {
  }

  lemma CreateJobApplies(s: State, lib: int, ok: bool, scope: set<FolderId>)
    requires s.process.Some? && s.process.value.stage.Scanning?
    requires lib in s.process.value.stage.unplanned && lib in s.libs
    ensures var e, p := CreateJob(lib, ok, scope), s.process.value;
            var known := KnownFolders(s.folders, lib, p.selective, scope);
            var job := Job(s.libs[lib].startedAt, s.libs[lib].full || p.full, known, None, known.Keys, {}, {});
            Enabled(s, e) && Apply(s, e) == s.(clock := s.clock + 1, process := Some(p.(
              jobs := if ok then p.jobs[lib := job] else p.jobs, stage := Scanning(p.stage.unplanned - {lib}))))
  {
  }

  lemma VisitApplies(s: State, lib: int)
    requires s.process.Some? && s.process.value.stage.Scanning? && lib in s.process.value.jobs
    requires s.process.value.jobs[lib].walk.Some? && s.process.value.jobs[lib].walk.value != []
    ensures var p, job := s.process.value, s.process.value.jobs[lib];
            var f := job.walk.value[0];
            var id := FolderId(lib, f.path);
            var job' := job.(lastUpdates := job.lastUpdates - {id}, walk := Some(job.walk.value[1..]),
                             entered := job.entered + {id}, emitted := if f.readable then job.emitted + {id} else job.emitted);
            Enabled(s, Visit(lib)) && Apply(s, Visit(lib)) == s.(clock := s.clock + 1, process := Some(p.(
              jobs := p.jobs[lib := job'],
              queue := if Puts(p.full, job, LastUpdate(job, id), f) then p.queue + multiset{Entry(id, f.hash)} else p.queue)))
  {
  }

  /** The walk moves on from a folder it has entered. */
  function Entered(job: Job, id: FolderId, readable: bool): Job
    requires job.walk.Some? && job.walk.value != []
  {
    job.(walk := Some(job.walk.value[1..]), entered := job.entered + {id},
         emitted := if readable then job.emitted + {id} else job.emitted)
  }

  lemma VisitLeads(s: State, lib: int)
    requires s.process.Some? && s.process.value.stage.Scanning? && lib in s.process.value.jobs
    requires s.process.value.jobs[lib].walk.Some? && s.process.value.jobs[lib].walk.value != []
    ensures var p, job := s.process.value, s.process.value.jobs[lib];
            var f := job.walk.value[0];
            var id := FolderId(lib, f.path);
            Leads(s, [Visit(lib)], s.(clock := s.clock + 1, process := Some(p.(
              jobs := p.jobs[lib := Entered(job.(lastUpdates := job.lastUpdates - {id}), id, f.readable)],
              queue := if Puts(p.full, job, LastUpdate(job, id), f) then p.queue + multiset{Entry(id, f.hash)} else p.queue))))
  {
    VisitApplies(s, lib);
    hide Apply, Enabled, Leads, Puts, LastUpdate;
    OneStep(s, Visit(lib), Apply(s, Visit(lib)));
  }

  /** isOutdated, and the producer's exception for new folders without files. */
  method GoesDownPipeline(fullScan: bool, job: Job, info: Info, f: Found) returns (puts: bool)
    ensures puts == Puts(fullScan, job, info, f)
    ensures job.full && fullScan && f.readable && !puts ==> info.updatedAt >= job.startedAt && info.hash == f.hash
    ensures job.full && fullScan && f.readable && info.updatedAt < job.startedAt ==> puts
    ensures !fullScan && info == UNKNOWN && f.noFiles ==> !puts
  {
    if !f.readable {
      return false;
    }
    var outdated := (job.full && info.updatedAt < job.startedAt) || info.hash != f.hash;
    if !outdated {
      return false;
    }
    if !fullScan {
      if f.noFiles && info.updatedAt == 0 {
        return false;
      }
    }
    return true;
  }

  lemma PersistApplies(s: State, entry: Entry, puts: map<string, set<FolderId>>, touches: set<string>, ok: bool)
    requires s.process.Some? && s.process.value.stage.Scanning? && entry in s.process.value.queue
    ensures var e, p, now := Persist(entry, puts, touches, ok), s.process.value, s.clock + 1;
            Enabled(s, e) && Apply(s, e) == State(now, s.libs,
              if ok then s.folders[entry.id := Folder(now, entry.hash, false)] else s.folders,
              if ok then PutAlbums(s.albums, entry.id.lib, puts, touches, now) else s.albums,
              Some(p.(queue := p.queue - multiset{entry}, failed := p.failed || !ok)), NewHistory(s, e, now))
  {
  }

  lemma FinalizeApplies(s: State, ok: bool)
    requires s.process.Some? && s.process.value.stage.Scanning? && (s.process.value.failed || PhaseOneDone(s.process.value))
    ensures var e, p, now := Finalize(ok), s.process.value, s.clock + 1;
            var folders := MarkMissing(s.folders, Leftover(p.jobs), now);
            Enabled(s, e) && Apply(s, e) == State(now, s.libs,
              if ok then folders else s.folders,
              if ok && Leftover(p.jobs) != {} then TouchByMissingFolder(s.albums, folders, now) else s.albums,
              Some(p.(stage := Refreshing(p.libs), failed := p.failed || !ok)), NewHistory(s, e, now))
  {
  }

  lemma ScanEndApplies(s: State)
    requires s.process.Some? && s.process.value.stage == Refreshing({}) && !s.process.value.failed
    ensures Enabled(s, ScanEnd) && Apply(s, ScanEnd) == s.(
              clock := s.clock + 1, libs := AllEnded(s.libs, s.process.value.libs, s.clock + 1), process := None)
  {
  }

  function AllEnded(libs: map<int, Library>, ids: set<int>, now: int): map<int, Library> {
    map id | id in libs :: if id in ids then Ended(libs[id], now) else libs[id]
  }

  lemma OneMoreEnded(libs: map<int, Library>, ids: set<int>, id: int, now: int)
    requires id in libs && id !in ids
    ensures AllEnded(libs, ids, now)[id := Ended(libs[id], now)] == AllEnded(libs, ids + {id}, now)
  {
  }

  /** The state in the middle of prepareLibrariesForScan. */
  ghost function MidPrepare(s: State, p: Process, clock: int, libs: map<int, Library>, chosen: set<int>, todo: set<int>): State {
    State(clock, libs, s.folders, s.albums, Some(p.(libs := chosen, stage := Preparing(todo))), s.history)
  }

  lemma PrepareOne(
    s: State, events: seq<Event>, p: Process, clock: int, libs: map<int, Library>, chosen: set<int>, todo: set<int>,
    id: int, outcome: BeginOutcome)
    requires Leads(s, events, MidPrepare(s, p, clock, libs, chosen, todo)) && id in todo && id in libs
    ensures var libs' := if !libs[id].isVirtual && libs[id].startedAt == 0 && !outcome.NotBegun?
                         then libs[id := Started(libs[id], p.full, clock + 1)] else libs;
            var chosen' := if Keeps(libs[id], outcome) then chosen else chosen - {id};
            Leads(s, events + [PrepareLibrary(id, outcome)], MidPrepare(s, p, clock + 1, libs', chosen', todo - {id}))
  {
    var m := MidPrepare(s, p, clock, libs, chosen, todo);
    PrepareApplies(m, id, outcome);
    hide Leads, Enabled, Apply;
    LeadsFurther(s, events, m, PrepareLibrary(id, outcome), Apply(m, PrepareLibrary(id, outcome)));
  }

  lemma PreparedLeads(s: State, events: seq<Event>, p: Process, clock: int, libs: map<int, Library>, chosen: set<int>)
    requires Leads(s, events, MidPrepare(s, p, clock, libs, chosen, {}))
    ensures Leads(s, events + [Prepared], State(clock + 1, libs, s.folders, s.albums,
              if chosen == {} then None else Some(p.(libs := chosen, stage := Scanning(chosen))), s.history))
  {
    hide Leads, Enabled, Apply;
    var m := MidPrepare(s, p, clock, libs, chosen, {});
    PreparedApplies(m);
    LeadsFurther(s, events, m, Prepared, Apply(m, Prepared));
  }

  /** The state in the middle of createPhaseFolders. */
  ghost function MidCreate(s: State, p: Process, clock: int, jobs: map<int, Job>, todo: set<int>): State {
    State(clock, s.libs, s.folders, s.albums, Some(p.(jobs := jobs, stage := Scanning(todo))), s.history)
  }

  function FirstJob(s: State, p: Process, id: int, scope: set<FolderId>): Job
    requires id in s.libs
  {
    var known := KnownFolders(s.folders, id, p.selective, scope);
    Job(s.libs[id].startedAt, s.libs[id].full || p.full, known, None, known.Keys, {}, {})
  }

  lemma CreateOne(
    s: State, events: seq<Event>, p: Process, clock: int, jobs: map<int, Job>, todo: set<int>, id: int, ok: bool, scope: set<FolderId>)
    requires Leads(s, events, MidCreate(s, p, clock, jobs, todo)) && id in todo && id in s.libs
    ensures var jobs' := if ok then jobs[id := FirstJob(s, p, id, scope)] else jobs;
            Leads(s, events + [CreateJob(id, ok, scope)], MidCreate(s, p, clock + 1, jobs', todo - {id}))
  {
    var m := MidCreate(s, p, clock, jobs, todo);
    CreateJobApplies(m, id, ok, scope);
    hide Leads, Enabled, Apply;
    LeadsFurther(s, events, m, CreateJob(id, ok, scope), Apply(m, CreateJob(id, ok, scope)));
  }

  /** The folders of the library that are present and in scope, with their time and hash. */
  ghost predicate IsKnown(folders: map<FolderId, Folder>, lib: int, selective: bool, scope: set<FolderId>, known: map<FolderId, Info>) {
    && (forall f :: f in known <==> f in folders && f.lib == lib && !folders[f].missing && (selective ==> f in scope))
    && (forall f :: f in known ==> f in folders && known[f] == Info(folders[f].updatedAt, folders[f].hash))
  }

  lemma KnownFoldersAre(folders: map<FolderId, Folder>, lib: int, selective: bool, scope: set<FolderId>)
    ensures IsKnown(folders, lib, selective, scope, KnownFolders(folders, lib, selective, scope))
  {
  }

  /** What a visit makes of the process: the folder is no longer unmet, and it is on its way if it is outdated. */
  ghost predicate VisitDone(p: Process, p': Process, lib: int)
    requires lib in p.jobs && p.jobs[lib].walk.Some? && p.jobs[lib].walk.value != []
  {
    var job, f := p.jobs[lib], p.jobs[lib].walk.value[0];
    var id := FolderId(lib, f.path);
    var info := if id in job.lastUpdates then job.lastUpdates[id] else Info(0, "");
    var outdated := (job.full && info.updatedAt < job.startedAt) || info.hash != f.hash;
    var emptyAndNew := f.noFiles && info.updatedAt == 0;
    && p' == p.(jobs := p'.jobs, queue := p'.queue)
    && p'.jobs == p.jobs[lib := job.(
         lastUpdates := job.lastUpdates - {id}, walk := Some(job.walk.value[1..]), entered := job.entered + {id},
         emitted := if f.readable then job.emitted + {id} else job.emitted)]
    && p'.queue == if f.readable && outdated && (p.full || !emptyAndNew) then p.queue + multiset{Entry(id, f.hash)} else p.queue
  }

  lemma VisitIsDone(p: Process, lib: int)
    requires lib in p.jobs && p.jobs[lib].walk.Some? && p.jobs[lib].walk.value != []
    ensures var job, f := p.jobs[lib], p.jobs[lib].walk.value[0];
            var id := FolderId(lib, f.path);
            VisitDone(p, p.(
              jobs := p.jobs[lib := Entered(job.(lastUpdates := job.lastUpdates - {id}), id, f.readable)],
              queue := if Puts(p.full, job, LastUpdate(job, id), f) then p.queue + multiset{Entry(id, f.hash)} else p.queue), lib)
  {
  }

  /** Albums that are put are replaced and take their folders from the new data; touched ones get a new import time. */
  ghost predicate AlbumsPut(
    before: map<string, Album>, after: map<string, Album>, lib: int, puts: map<string, set<FolderId>>, touches: set<string>, now: int)
  {
    && after.Keys == before.Keys + puts.Keys
    && (forall id :: id in puts ==> after[id] == Album(lib, puts[id], now))
    && (forall id :: id in before && id !in puts ==>
          if id in touches then after[id] == before[id].(importedAt := now) else after[id] == before[id])
  }

  lemma AlbumsArePut(albums: map<string, Album>, lib: int, puts: map<string, set<FolderId>>, touches: set<string>, now: int)
    ensures AlbumsPut(albums, PutAlbums(albums, lib, puts, touches, now), lib, puts, touches, now)
  {
  }

  /** The folders that some job has left over are missing now; the others are as before. */
  ghost predicate FoldersMarked(before: map<FolderId, Folder>, after: map<FolderId, Folder>, jobs: map<int, Job>, now: int) {
    && after.Keys == before.Keys
    && forall id :: id in before ==>
         if exists lib :: lib in jobs && id in jobs[lib].lastUpdates
         then after[id] == before[id].(missing := true, updatedAt := now) else after[id] == before[id]
  }

  /** If any folder was left over, the albums with a missing folder are touched. */
  ghost predicate AlbumsTouched(
    before: map<string, Album>, after: map<string, Album>, folders: map<FolderId, Folder>, jobs: map<int, Job>, now: int)
  {
    && after.Keys == before.Keys
    && forall id :: id in before ==>
         if (exists lib :: lib in jobs && jobs[lib].lastUpdates != map[])
            && exists f :: f in before[id].folders && f in folders && folders[f].missing
         then after[id] == before[id].(importedAt := now) else after[id] == before[id]
  }

  lemma LeftoverMeans(jobs: map<int, Job>)
    ensures forall id :: id in Leftover(jobs) <==> exists lib :: lib in jobs && id in jobs[lib].lastUpdates
    ensures Leftover(jobs) != {} <==> exists lib :: lib in jobs && jobs[lib].lastUpdates != map[]
  {
    if lib :| lib in jobs && jobs[lib].lastUpdates != map[] {
      var id :| id in jobs[lib].lastUpdates;
      assert id in Leftover(jobs);
    }
    if id :| id in Leftover(jobs) {
      var lib :| lib in jobs && id in jobs[lib].lastUpdates;
      assert jobs[lib].lastUpdates != map[];
    }
  }

  lemma FinalizedIs(jobs: map<int, Job>, now: int, folders: map<FolderId, Folder>, albums: map<string, Album>)
    ensures var marked := MarkMissing(folders, Leftover(jobs), now);
            && FoldersMarked(folders, marked, jobs, now)
            && AlbumsTouched(albums, if Leftover(jobs) != {} then TouchByMissingFolder(albums, marked, now) else albums, marked, jobs, now)
  {
    LeftoverMeans(jobs);
    hide Leftover;
  }

  predicate Kept(row: Library, outcome: BeginOutcome) {
    !row.isVirtual && (row.startedAt != 0 || outcome.Begun?)
  }

  lemma KeepsIsKept(row: Library, outcome: BeginOutcome)
    ensures Keeps(row, outcome) == Kept(row, outcome)
  {
  }

  /** The rows when the libraries in `done` have been prepared: those that could be begun record mode and time. */
  ghost predicate RowsPrepared(
    before: map<int, Library>, after: map<int, Library>, done: set<int>, outcome: int -> BeginOutcome, fullScan: bool, start: int, now: int)
  {
    && after.Keys == before.Keys
    && forall id :: id in before ==>
         if id in done && !before[id].isVirtual && before[id].startedAt == 0 && !outcome(id).NotBegun?
         then after[id] == before[id].(startedAt := after[id].startedAt, full := fullScan) && start < after[id].startedAt <= now
         else after[id] == before[id]
  }

  lemma NonePrepared(libs: map<int, Library>, done: set<int>, outcome: int -> BeginOutcome, fullScan: bool, now: int)
    requires done == {}
    ensures RowsPrepared(libs, libs, done, outcome, fullScan, now, now)
  {
  }

  lemma OneMorePrepared(
    before: map<int, Library>, libs: map<int, Library>, done: set<int>, id: int, outcome: int -> BeginOutcome, fullScan: bool, start: int, now: int)
    requires RowsPrepared(before, libs, done, outcome, fullScan, start, now) && id in libs && id !in done && start <= now
    ensures libs[id] == before[id]
    ensures RowsPrepared(before,
              if !libs[id].isVirtual && libs[id].startedAt == 0 && !outcome(id).NotBegun?
              then libs[id := libs[id].(startedAt := now + 1, full := fullScan)] else libs,
              done + {id}, outcome, fullScan, start, now + 1)
  {
  }

  lemma LaterPrepared(
    before: map<int, Library>, libs: map<int, Library>, done: set<int>, outcome: int -> BeginOutcome, fullScan: bool, start: int, now: int)
    requires RowsPrepared(before, libs, done, outcome, fullScan, start, now)
    ensures RowsPrepared(before, libs, done, outcome, fullScan, start, now + 1)
  {
  }

  /** The database, as far as a scan is concerned, and the scan in progress, if there is one. */
  class Scanner {
    var clock: int
    var libs: map<int, Library>
    var folders: map<FolderId, Folder>
    var albums: map<string, Album>
    var process: Option<Process>
    ghost var history: History

    ghost function View(): State
      reads this
    {
      State(clock, libs, folders, albums, process, history)
    }

    /** Looks for an interrupted full scan, and stops at the first. */
    method InterruptedFullScan(chosen: set<int>) returns (found: bool)
      requires chosen <= libs.Keys
      ensures found <==> Interrupted(libs, chosen)
    {
      var rest := chosen;
      while rest != {}
        invariant rest <= chosen
        invariant forall id :: id in chosen - rest ==> !libs[id].full
      {
        var id := Pick(rest);
        if libs[id].full {
          return true;
        }
        rest := rest - {id};
      }
      return false;
    }

    /** scanFolders, up to the preparation of the libraries. */
    method Begin(requested: bool, targets: Option<set<int>>)
      requires process.None?
      modifies `clock, `process
      ensures process.Some? && Leads(old(View()), [Event.Begin(requested, targets)], View())
      ensures var chosen, full := process.value.libs, process.value.full;
              && process == Some(Process(full, targets.Some?, chosen, map[], multiset{}, Preparing(chosen), false))
              && (forall id :: id in chosen <==> id in libs && (targets.Some? ==> id in targets.value))
              && (full <==> requested || exists id :: id in chosen && libs[id].full)
    {
      hide Apply, Enabled, Leads;
      ghost var s := View();
      BeginApplies(s, requested, targets);
      var chosen := if targets.Some? then libs.Keys * targets.value else libs.Keys;
      var full := requested;
      if !full {
        full := InterruptedFullScan(chosen);
      }
      process := Some(Process(full, targets.Some?, chosen, map[], multiset{}, Preparing(chosen), false));
      clock := clock + 1;
      OneStep(s, Event.Begin(requested, targets), View());
    }

    /** Begins the scan of one library, unless one is in progress; says whether to scan the library. */
    method PrepareLibraryRow(id: int, outcome: BeginOutcome, fullScan: bool) returns (keep: bool)
      requires id in libs
      modifies `clock, `libs
      ensures clock == old(clock) + 1
      ensures keep == Kept(old(libs)[id], outcome)
      ensures libs == if !old(libs)[id].isVirtual && old(libs)[id].startedAt == 0 && !outcome.NotBegun?
                      then old(libs)[id := old(libs)[id].(startedAt := clock, full := fullScan)] else old(libs)
    {
      clock := clock + 1;
      if libs[id].isVirtual {
        return false;
      }
      if libs[id].startedAt == 0 {
        if outcome.NotBegun? {
          return false;
        }
        libs := libs[id := libs[id].(startedAt := clock, full := fullScan)];
        if outcome.NotReloaded? {
          return false;
        }
      }
      return true;
    }

    /** prepareLibrariesForScan: begins the libraries with no scan in progress, resumes the others. */
    method PrepareLibraries(outcome: int -> BeginOutcome) returns (ok: bool, ghost events: seq<Event>)
      requires process.Some? && process.value.stage == Preparing(process.value.libs) && process.value.libs <= libs.Keys
      modifies `clock, `libs, `process
      ensures Leads(old(View()), events, View())
      ensures libs.Keys == old(libs).Keys
      ensures ok == process.Some?
      ensures RowsPrepared(old(libs), libs, old(process).value.libs, outcome, old(process).value.full, old(clock), clock)
      ensures ok ==> process.value.libs != {} && forall id :: id in process.value.libs <==>
                id in old(process).value.libs && Kept(old(libs)[id], outcome(id))
      ensures !ok ==> forall id :: id in old(process).value.libs ==> !Kept(old(libs)[id], outcome(id))
      ensures ok ==> process == Some(old(process).value.(libs := process.value.libs, stage := Scanning(process.value.libs)))
    {
      hide Leads, MidPrepare, Keeps, Kept, RowsPrepared;
      ghost var s := View();
      events := [];
      var p := process.value;
      var chosen, todo := p.libs, p.libs;
      MidPrepareFirst(s, p);
      NonePrepared(libs, p.libs - todo, outcome, p.full, clock);
      while todo != {}
        invariant process == s.process && todo <= chosen <= p.libs && libs.Keys == s.libs.Keys && clock >= s.clock
        invariant Leads(s, events, MidPrepare(s, p, clock, libs, chosen, todo))
        invariant forall id :: id in p.libs ==> (id in chosen <==> id in todo || Kept(s.libs[id], outcome(id)))
        invariant RowsPrepared(s.libs, libs, p.libs - todo, outcome, p.full, s.clock, clock)
      {
        var id := Pick(todo);
        OneMorePrepared(s.libs, libs, p.libs - todo, id, outcome, p.full, s.clock, clock);
        assert p.libs - todo + {id} == p.libs - (todo - {id});
        PrepareOne(s, events, p, clock, libs, chosen, todo, id, outcome(id));
        KeepsIsKept(libs[id], outcome(id));
        events := events + [PrepareLibrary(id, outcome(id))];
        var keep := PrepareLibraryRow(id, outcome(id), p.full);
        chosen, todo := if keep then chosen else chosen - {id}, todo - {id};
      }
      PreparedLeads(s, events, p, clock, libs, chosen);
      assert p.libs - todo == p.libs;
      LaterPrepared(s.libs, libs, p.libs, outcome, p.full, s.clock, clock);
      events := events + [Prepared];
      clock := clock + 1;
      ok := chosen != {};
      process := if ok then Some(p.(libs := chosen, stage := Scanning(chosen))) else None;
    }

    /** createPhaseFolders: a job for each library; one that cannot be created is left out. */
    method CreateJobs(failing: set<int>, scope: set<FolderId>) returns (ghost events: seq<Event>)
      requires process.Some? && process.value.stage == Scanning(process.value.libs)
      requires process.value.libs <= libs.Keys && process.value.jobs == map[]
      modifies `clock, `process
      ensures Leads(old(View()), events, View())
      ensures process.Some? && process.value.stage == Scanning({}) && process.value.jobs.Keys == old(process).value.libs - failing
      ensures forall id :: id in process.value.jobs ==>
                && process.value.jobs[id].startedAt == libs[id].startedAt
                && process.value.jobs[id].full == (libs[id].full || process.value.full)
                && IsKnown(folders, id, process.value.selective, scope, process.value.jobs[id].lastUpdates)
                && process.value.jobs[id].known == process.value.jobs[id].lastUpdates.Keys
                && process.value.jobs[id].walk.None? && process.value.jobs[id].entered == process.value.jobs[id].emitted == {}
      ensures process == Some(old(process).value.(jobs := process.value.jobs, stage := Scanning({})))
    {
      hide Leads, KnownFolders, MidCreate;
      ghost var s := View();
      events := [];
      var p := process.value;
      var jobs: map<int, Job>, todo := map[], p.libs;
      MidCreateFirst(s, p);
      while todo != {}
        invariant process == s.process && todo <= p.libs && jobs.Keys == p.libs - todo - failing
        invariant Leads(s, events, MidCreate(s, p, clock, jobs, todo))
        invariant forall id :: id in jobs ==> jobs[id] == FirstJob(s, p, id, scope)
      {
        var id := Pick(todo);
        CreateOne(s, events, p, clock, jobs, todo, id, id !in failing, scope);
        events := events + [CreateJob(id, id !in failing, scope)];
        clock := clock + 1;
        if id !in failing {
          var known := KnownFolders(folders, id, p.selective, scope);
          jobs := jobs[id := Job(libs[id].startedAt, libs[id].full || p.full, known, None, known.Keys, {}, {})];
        }
        todo := todo - {id};
      }
      process := Some(p.(jobs := jobs, stage := Scanning({})));
      MidCreateLast(s, p, View());
      forall id | id in jobs
        ensures IsKnown(folders, id, p.selective, scope, jobs[id].lastUpdates)
      {
        KnownFoldersAre(folders, id, p.selective, scope);
      }
    }

    /** popLastUpdate: hands out what the database knew, once. */
    method PopLastUpdate(lib: int, id: FolderId) returns (info: Info)
      requires process.Some? && lib in process.value.jobs
      modifies `process
      ensures var p := old(process).value;
              var job := p.jobs[lib];
              && info == LastUpdate(job, id)
              && process == Some(p.(jobs := p.jobs[lib := job.(lastUpdates := job.lastUpdates - {id})]))
    {
      var job := process.value.jobs[lib];
      info := if id in job.lastUpdates then job.lastUpdates[id] else UNKNOWN;
      process := Some(process.value.(jobs := process.value.jobs[lib := job.(lastUpdates := job.lastUpdates - {id})]));
    }

    /** The walk enters the next directory; what it passes on goes down the pipeline if outdated. */
    method VisitNext(lib: int)
      requires process.Some? && process.value.stage.Scanning? && lib in process.value.jobs
      requires process.value.jobs[lib].walk.Some? && process.value.jobs[lib].walk.value != []
      modifies `clock, `process
      ensures Leads(old(View()), [Visit(lib)], View())
      ensures process.Some? && VisitDone(old(process).value, process.value, lib)
    {
      hide Apply, Enabled, Leads, LastUpdate, Puts, VisitDone;
      ghost var s := View();
      VisitLeads(s, lib);
      VisitIsDone(process.value, lib);
      var job := process.value.jobs[lib];
      var f := job.walk.value[0];
      var id := FolderId(lib, f.path);
      var info := PopLastUpdate(lib, id);
      var p := process.value;
      var puts := GoesDownPipeline(p.full, job, info, f);
      var entered := Entered(p.jobs[lib], id, f.readable);
      SetTwice(s.process.value.jobs, lib, p.jobs[lib], entered);
      process := Some(p.(jobs := p.jobs[lib := entered], queue := if puts then p.queue + multiset{Entry(id, f.hash)} else p.queue));
      clock := clock + 1;
    }

    /** persistChanges: one transaction for the folder and its albums. */
    method PersistChanges(entry: Entry, puts: map<string, set<FolderId>>, touches: set<string>, ok: bool)
      requires process.Some? && process.value.stage.Scanning? && entry in process.value.queue
      modifies `clock, `folders, `albums, `process, `history
      ensures Leads(old(View()), [Persist(entry, puts, touches, ok)], View())
      ensures clock == old(clock) + 1
      ensures folders == if ok then old(folders)[entry.id := Folder(clock, entry.hash, false)] else old(folders)
      ensures !ok ==> albums == old(albums)
      ensures ok ==> AlbumsPut(old(albums), albums, entry.id.lib, puts, touches, clock)
      ensures process == Some(old(process).value.(
                queue := old(process).value.queue - multiset{entry}, failed := old(process).value.failed || !ok))
    {
      hide Apply, Enabled, NewHistory, Leads, PutAlbums, AlbumsPut;
      ghost var s, e := View(), Persist(entry, puts, touches, ok);
      AlbumsArePut(albums, entry.id.lib, puts, touches, clock + 1);
      PersistApplies(s, entry, puts, touches, ok);
      history := NewHistory(s, e, clock + 1);
      clock := clock + 1;
      var p := process.value;
      if ok {
        folders := folders[entry.id := Folder(clock, entry.hash, false)];
        albums := PutAlbums(albums, entry.id.lib, puts, touches, clock);
      }
      process := Some(p.(queue := p.queue - multiset{entry}, failed := p.failed || !ok));
      OneStep(s, e, View());
    }

    /** finalize: job by job, marks what is left in lastUpdates and touches the albums concerned. */
    method FinalizeFolders()
      requires process.Some? && process.value.stage.Scanning? && (process.value.failed || PhaseOneDone(process.value))
      modifies `clock, `folders, `albums, `process, `history
      ensures Leads(old(View()), [Finalize(true)], View())
      ensures process == Some(old(process).value.(stage := Refreshing(old(process).value.libs))) && clock == old(clock) + 1
      ensures FoldersMarked(old(folders), folders, old(process).value.jobs, clock)
      ensures AlbumsTouched(old(albums), albums, folders, old(process).value.jobs, clock)
    {
      hide Apply, Enabled, NewHistory, MarkMissing, TouchByMissingFolder, Leads, FinalizedSoFar, Leftover, LeftoverOf, PhaseOneDone,
           FoldersMarked, AlbumsTouched;
      ghost var s := View();
      FinalizeApplies(s, true);
      var p, now := process.value, clock + 1;
      var marked, touched, todo := folders, albums, p.jobs.Keys;
      NothingFinalized(p.jobs, now, folders, albums);
      while todo != {}
        invariant todo <= p.jobs.Keys
        invariant clock == s.clock && process == s.process
        invariant FinalizedSoFar(p.jobs, p.jobs.Keys - todo, now, s.folders, marked, s.albums, touched)
      {
        var lib := Pick(todo);
        NextJobFinalized(p.jobs, p.jobs.Keys - todo, lib, now, s.folders, marked, s.albums, touched);
        assert p.jobs.Keys - todo + {lib} == p.jobs.Keys - (todo - {lib});
        todo := todo - {lib};
        var leftover := p.jobs[lib].lastUpdates.Keys;
        if leftover != {} {
          var ids := Listed(leftover);
          marked := MarkMissingInChunks(marked, ids, now);
          touched := TouchByMissingFolder(touched, marked, now);
        }
      }
      AllFinalized(p.jobs, now, s.folders, marked, s.albums, touched);
      FinalizedIs(p.jobs, now, s.folders, s.albums);
      history := NewHistory(s, Finalize(true), now);
      clock, folders, albums := now, marked, touched;
      process := Some(p.(stage := Refreshing(p.libs)));
      OneStep(s, Finalize(true), View());
    }

    /** runUpdateLibraries: ends the scan of every library of the process. */
    method UpdateLibraries()
      requires process.Some? && process.value.stage == Refreshing({}) && !process.value.failed
      requires process.value.libs <= libs.Keys
      modifies `clock, `libs, `process
      ensures Leads(old(View()), [ScanEnd], View())
      ensures process.None? && libs.Keys == old(libs).Keys
      ensures forall id :: id in libs ==>
                if id in old(process).value.libs
                then libs[id] == Library(old(libs)[id].isVirtual, 0, false, clock) else libs[id] == old(libs)[id]
    {
      hide Apply, Enabled, Leads;
      ghost var s := View();
      ScanEndApplies(s);
      clock := clock + 1;
      var chosen, todo := process.value.libs, process.value.libs;
      assert libs == AllEnded(s.libs, chosen - todo, clock);
      while todo != {}
        invariant todo <= chosen && clock == s.clock + 1 && process == s.process
        invariant libs == AllEnded(s.libs, chosen - todo, clock)
      {
        var id := Pick(todo);
        OneMoreEnded(s.libs, chosen - todo, id, clock);
        assert chosen - todo + {id} == chosen - (todo - {id});
        libs := libs[id := libs[id].(lastScanAt := clock, full := false, startedAt := 0)];
        todo := todo - {id};
      }
      assert chosen - todo == chosen;
      process := None;
      OneStep(s, ScanEnd, View());
    }
  }

  lemma SetTwice(jobs: map<int, Job>, lib: int, first: Job, second: Job)
    ensures jobs[lib := first][lib := second] == jobs[lib := second]
  {
  }

  lemma MidPrepareFirst(s: State, p: Process)
    requires s.process == Some(p) && p.stage == Preparing(p.libs)
    ensures Leads(s, [], MidPrepare(s, p, s.clock, s.libs, p.libs, p.libs))
  {
  }

  lemma MidCreateFirst(s: State, p: Process)
    requires s.process == Some(p) && p.stage == Scanning(p.libs) && p.jobs == map[]
    ensures Leads(s, [], MidCreate(s, p, s.clock, map[], p.libs))
  {
  }

  lemma MidCreateLast(s: State, p: Process, s': State)
    requires s'.process.Some? && s'.process.value == p.(jobs := s'.process.value.jobs, stage := Scanning({}))
    requires s'.libs == s.libs && s'.folders == s.folders && s'.albums == s.albums && s'.history == s.history
    ensures MidCreate(s, p, s'.clock, s'.process.value.jobs, {}) == s'
  {
  }

  lemma NothingFinalized(jobs: map<int, Job>, now: int, folders: map<FolderId, Folder>, albums: map<string, Album>)
    ensures FinalizedSoFar(jobs, jobs.Keys - jobs.Keys, now, folders, folders, albums, albums)
  {
    assert LeftoverOf(jobs, jobs.Keys - jobs.Keys) == {};
  }

  lemma AllFinalized(
    jobs: map<int, Job>, now: int,
    folders: map<FolderId, Folder>, folders': map<FolderId, Folder>, albums: map<string, Album>, albums': map<string, Album>)
    requires FinalizedSoFar(jobs, jobs.Keys - {}, now, folders, folders', albums, albums')
    ensures folders' == MarkMissing(folders, Leftover(jobs), now)
    ensures albums' == if Leftover(jobs) != {} then TouchByMissingFolder(albums, folders', now) else albums
  {
    assert LeftoverOf(jobs, jobs.Keys - {}) == Leftover(jobs);
  }

  /** The keys of a map, in some order. */
  method Listed(ids: set<FolderId>) returns (s: seq<FolderId>)
    ensures Elements(s) == ids
  {
    s := [];
    var rest := ids;
    while rest != {}
      invariant rest <= ids && Elements(s) == ids - rest
    {
      var id :| id in rest;
      assert Elements(s + [id]) == Elements(s) + {id};
      s, rest := s + [id], rest - {id};
    }
  }
}
