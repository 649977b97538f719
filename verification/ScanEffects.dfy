/**
 What the transactions of a scan do to libraries, folders, albums and the process, said in
 terms of the rows before.
 */
module ScanEffects {
  import opened Options
  import opened ScanModel

  /** A scan is recorded as begun in a library that is not virtual and has none in progress; the other libraries stay. */
  lemma PrepareRecords(s: State, lib: int, outcome: BeginOutcome)
    requires Enabled(s, PrepareLibrary(lib, outcome))
    ensures var s', row := Apply(s, PrepareLibrary(lib, outcome)), s.libs[lib];
            && s'.libs == s.libs[lib :=
                 if !row.isVirtual && row.startedAt == 0 && (outcome.Begun? || outcome.NotReloaded?)
                 then row.(startedAt := s'.clock, full := s.process.value.full) else row]
            && s'.folders == s.folders && s'.albums == s.albums && s'.history == s.history
  {
    hide NewProcess;
  }

  /** The process goes on with the libraries that are resumed, or begun and read back. */
  lemma PrepareKeeps(s: State, lib: int, outcome: BeginOutcome)
    requires Enabled(s, PrepareLibrary(lib, outcome))
    ensures var s', row, p := Apply(s, PrepareLibrary(lib, outcome)), s.libs[lib], s.process.value;
            s'.process == Some(p.(
              libs := if row.isVirtual || (row.startedAt == 0 && !outcome.Begun?) then p.libs - {lib} else p.libs,
              stage := Preparing(p.stage.todo - {lib})))
  {
    hide NewLibs, NewFolders, NewAlbums, NewHistory;
  }

  /** With all libraries prepared phase 1 starts, unless none is left. */
  lemma PreparedStarts(s: State)
    requires Enabled(s, Prepared)
    ensures var s', p := Apply(s, Prepared), s.process.value;
            && s' == s.(clock := s.clock + 1, process := s'.process)
            && s'.process == if p.libs == {} then None else Some(p.(stage := Scanning(p.libs)))
  {
  }

  /** A job knows the folders of its library that are not missing and in scope, as the database has them. */
  ghost predicate IsNewJob(s: State, lib: int, scope: set<FolderId>, job: Job)
    requires s.process.Some? && lib in s.libs
  {
    && job.startedAt == s.libs[lib].startedAt && (job.full <==> s.libs[lib].full || s.process.value.full)
    && job.walk == None && job.entered == {} && job.emitted == {} && job.known == job.lastUpdates.Keys
    && (forall id :: id in job.lastUpdates <==>
          id in s.folders && id.lib == lib && !s.folders[id].missing && (s.process.value.selective ==> id in scope))
    && (forall id :: id in job.lastUpdates && id in s.folders ==>
          job.lastUpdates[id] == Info(s.folders[id].updatedAt, s.folders[id].hash))
  }

  lemma JobIsCreated(s: State, lib: int, ok: bool, scope: set<FolderId>)
    requires Enabled(s, CreateJob(lib, ok, scope))
    ensures var s', p := Apply(s, CreateJob(lib, ok, scope)), s.process.value;
            && s' == s.(clock := s.clock + 1, process := s'.process) && s'.process.Some?
            && var p' := s'.process.value;
               && p' == p.(jobs := p'.jobs, stage := Scanning(p.stage.unplanned - {lib}))
               && (if ok then lib in p'.jobs && IsNewJob(s, lib, scope, p'.jobs[lib]) && p'.jobs == p.jobs[lib := p'.jobs[lib]]
                   else p'.jobs == p.jobs)
  {
  }

  /**
   A folder met by the walk is put down the pipeline if and only if it can be read and is new,
   changed, or, in a full scan, not imported since the scan began; in a quick scan a new one
   needs files as well.
   */
  ghost predicate IsPut(s: State, job: Job, id: FolderId, f: Found)
    requires s.process.Some?
  {
    var updatedAt := if id in job.lastUpdates then job.lastUpdates[id].updatedAt else 0;
    var hash := if id in job.lastUpdates then job.lastUpdates[id].hash else "";
    && f.readable
    && (hash != f.hash || (job.full && updatedAt < job.startedAt))
    && (s.process.value.full || !f.noFiles || updatedAt != 0)
  }

  lemma VisitIs(s: State, lib: int)
    requires Enabled(s, Visit(lib))
    ensures var s', p, job := Apply(s, Visit(lib)), s.process.value, s.process.value.jobs[lib];
            var f := job.walk.value[0];
            var id := FolderId(lib, f.path);
            && s' == s.(clock := s.clock + 1, process := s'.process) && s'.process.Some?
            && var p' := s'.process.value;
               && p' == p.(jobs := p'.jobs, queue := p'.queue)
               && p'.queue == p.queue + (if IsPut(s, job, id, f) then multiset{Entry(id, f.hash)} else multiset{})
               && p'.jobs == p.jobs[lib := Job(
                    job.startedAt, job.full, job.lastUpdates - {id}, Some(job.walk.value[1..]), job.known,
                    job.entered + {id}, if f.readable then job.emitted + {id} else job.emitted)]
  {
  }

  lemma WalkStarts(s: State, lib: int, found: seq<Found>)
    requires Enabled(s, StartWalk(lib, found))
    ensures var s', p := Apply(s, StartWalk(lib, found)), s.process.value;
            s' == s.(clock := s.clock + 1, process := Some(p.(jobs := p.jobs[lib := p.jobs[lib].(walk := Some(found))])))
  {
  }

  /** What one transaction of the pipeline makes of the albums: put ones are as given, touched ones are imported now. */
  ghost predicate AlbumsWritten(s: State, albums': map<string, Album>, lib: int, puts: map<string, set<FolderId>>, touches: set<string>, now: int) {
    && albums'.Keys == s.albums.Keys + puts.Keys
    && (forall id :: id in puts && id in albums' ==> albums'[id] == Album(lib, puts[id], now))
    && (forall id :: id in s.albums && id !in puts && id in albums' ==>
          albums'[id] == if id in touches then s.albums[id].(importedAt := now) else s.albums[id])
  }

  /** A folder and its albums are written together or not at all; what was not written has failed. */
  lemma PersistWrites(s: State, entry: Entry, puts: map<string, set<FolderId>>, touches: set<string>, ok: bool)
    requires Enabled(s, Persist(entry, puts, touches, ok))
    ensures var s', p := Apply(s, Persist(entry, puts, touches, ok)), s.process.value;
            && s'.libs == s.libs
            && s'.folders == (if ok then s.folders[entry.id := Folder(s'.clock, entry.hash, false)] else s.folders)
            && (ok ==> AlbumsWritten(s, s'.albums, entry.id.lib, puts, touches, s'.clock))
            && (!ok ==> s'.albums == s.albums)
            && s'.process == Some(p.(queue := p.queue - multiset{entry}, failed := p.failed || !ok))
  {
    hide NewHistory;
  }

  /** A folder that a job still has, as the walk has not come to it. */
  predicate IsLeft(p: Process, id: FolderId) {
    exists lib :: lib in p.jobs && id in p.jobs[lib].lastUpdates
  }

  /**
   At the end of phase 1 exactly the folders left over are marked as missing, and if there are
   any, exactly the albums with a folder that is missing are imported again.
   */
  lemma FinalizeMarksAndTouches(s: State, ok: bool, id: FolderId, album: string)
    requires Enabled(s, Finalize(ok))
    ensures var s', p := Apply(s, Finalize(ok)), s.process.value;
            && s'.libs == s.libs && s'.folders.Keys == s.folders.Keys && s'.albums.Keys == s.albums.Keys
            && (id in s.folders ==>
                  s'.folders[id] == if ok && IsLeft(p, id) then s.folders[id].(missing := true, updatedAt := s'.clock) else s.folders[id])
            && (album in s.albums ==>
                  s'.albums[album] ==
                    if ok && (exists f :: IsLeft(p, f))
                       && (exists f :: f in s.albums[album].folders && f in s'.folders && s'.folders[f].missing)
                    then s.albums[album].(importedAt := s'.clock) else s.albums[album])
            && s'.process == Some(p.(stage := Refreshing(p.libs), failed := p.failed || !ok))
  {
    hide NewHistory;
    LeftoverIs(s.process.value);
    hide Leftover, IsLeft;
  }

  lemma LeftoverIs(p: Process)
    ensures forall id :: id in Leftover(p.jobs) <==> IsLeft(p, id)
    ensures Leftover(p.jobs) != {} <==> exists id :: IsLeft(p, id)
  {
    assert forall id :: id in Leftover(p.jobs) <==> IsLeft(p, id);
    if Leftover(p.jobs) != {} {
      var id :| id in Leftover(p.jobs);
      assert IsLeft(p, id);
    }
  }

  /** A new process takes up the libraries asked for, or all, and touches nothing. */
  lemma BeginTakesUp(s: State, requested: bool, targets: Option<set<int>>)
    requires Enabled(s, Begin(requested, targets))
    ensures var s' := Apply(s, Begin(requested, targets));
            && s' == s.(clock := s.clock + 1, process := s'.process) && s'.process.Some?
            && var p := s'.process.value;
               && (forall lib :: lib in p.libs <==> lib in s.libs && (targets.Some? ==> lib in targets.value))
               && (p.full <==> requested || exists lib :: lib in p.libs && lib in s.libs && s.libs[lib].full)
               && (p.selective <==> targets.Some?)
               && p.jobs == map[] && p.queue == multiset{} && p.stage == Preparing(p.libs) && !p.failed
  {
  }
}
