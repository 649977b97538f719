/**
 The plugin manager's operations, on the table rows and the map of loaded plugins they change.
 */
module PluginsService {
  import opened Iteration
  import opened Options
  import opened PluginsModel

  datatype Outcome = Done | NotFound | GateClosed | LoadFailed

  // ----- syncPlugins, name by name -----

  /** Some names have been synchronized, and the others are still as they were. */
  ghost predicate SyncedSoFar(s: State, done: set<Name>, rows: map<Name, Row>, loaded: map<Name, Instance>) {
    && (forall id :: Lookup(rows, id) == if id in done then SyncedRow(Lookup(s.rows, id), Lookup(s.disk, id)) else Lookup(s.rows, id))
    && (forall id :: Lookup(loaded, id) ==
          if id in done && Unloads(s, id) then None else Lookup(s.loaded, id))
  }

  predicate Unloads(s: State, id: Name) {
    id in s.rows && s.rows[id].enabled
    && !(SyncedRow(Lookup(s.rows, id), Lookup(s.disk, id)).Some? && SyncedRow(Lookup(s.rows, id), Lookup(s.disk, id)).value.enabled)
  }

  lemma AllSynced(s: State, done: set<Name>, rows: map<Name, Row>, loaded: map<Name, Instance>)
    requires SyncedSoFar(s, done, rows, loaded) && s.rows.Keys + s.disk.Keys <= done
    ensures State(rows, s.disk, loaded) == Synced(s)
  {
    forall id ensures (id in rows <==> id in Synced(s).rows) && (id in rows ==> rows[id] == Synced(s).rows[id]) {
      assert Lookup(rows, id) == if id in done then SyncedRow(Lookup(s.rows, id), Lookup(s.disk, id)) else Lookup(s.rows, id);
    }
    assert rows == Synced(s).rows;
    forall id ensures (id in loaded <==> id in Synced(s).loaded) && (id in loaded ==> loaded[id] == Synced(s).loaded[id]) {
      assert Lookup(loaded, id) == if id in done && Unloads(s, id) then None else Lookup(s.loaded, id);
    }
    assert loaded == Synced(s).loaded;
  }

  // ----- What a caller can tell beforehand -----

  /** The list can be read by the manager: unset, or an array with elements of the right type only. */
  predicate Readable(g: Grant) {
    match g
    case Unset => true
    case Malformed => false
    case Listed(items) => forall i :: 0 <= i < |items| ==> items[i].typed
  }

  predicate Grants(g: Grant, all: bool) {
    all || (g.Listed? && g.items != [] && Readable(g))
  }

  /** The package opens and compiles, the lists can be read, and the package asks for no more than is granted. */
  predicate MayRun(disk: map<Name, File>, id: Name, access: Access, compiles: bool) {
    && id in disk && disk[id].Package? && disk[id].content.manifest.Some? && compiles
    && Readable(access.users) && Readable(access.libraries)
    && (disk[id].content.manifest.value.wantsUsers ==> Grants(access.users, access.allUsers))
    && (disk[id].content.manifest.value.wantsLibraries ==> Grants(access.libraries, access.allLibraries))
  }

  /** Loading as such: it does not ask what the package wants. */
  predicate MayLoad(disk: map<Name, File>, id: Name, access: Access, compiles: bool) {
    && id in disk && disk[id].Package? && disk[id].content.manifest.Some? && compiles
    && Readable(access.users) && Readable(access.libraries)
  }

  /** Of the enabled plugins those that can be loaded are, with the access in their rows, and the others are disabled. */
  ghost predicate EnabledOnly(s: State, s': State, loadable: set<Name>) {
    && s'.disk == s.disk && s'.rows.Keys == s.rows.Keys
    && (forall id :: id in s.rows ==>
          && s'.rows[id] == s.rows[id].(enabled := s'.rows[id].enabled)
          && (s'.rows[id].enabled <==> s.rows[id].enabled && MayLoad(s.disk, id, s.rows[id].access, id in loadable)))
    && (forall id :: id in s'.loaded <==> id in s'.rows && s'.rows[id].enabled)
    && (forall id :: id in s'.loaded && id in s'.rows ==>
          && MayLoad(s.disk, id, s'.rows[id].access, true)
          && s'.loaded[id] == Instance(s.disk[id].content.manifest.value, s'.rows[id].access))
  }

  lemma EnabledLoadedIs(s: State, loadable: set<Name>)
    ensures EnabledOnly(s, EnabledLoaded(s, loadable), loadable)
  {
  }

  /** What a change of settings leaves in the row. */
  predicate Stored(before: Access, after: Access, change: Change) {
    match change
    case Config => after == before
    case Users(users, all) =>
      && after.users == users && after.allUsers == all
      && after.libraries == before.libraries && after.allLibraries == before.allLibraries
    case Libraries(libraries, all) =>
      && after.libraries == libraries && after.allLibraries == all
      && after.users == before.users && after.allUsers == before.allUsers
  }

  /**
   After a change of settings the row holds what was given, and the plugin is enabled if it
   was and may run with that; then it is loaded with it.
   */
  ghost predicate SettingsUpdated(s: State, s': State, id: Name, change: Change, compiles: bool) {
    && s'.disk == s.disk && s'.rows.Keys == s.rows.Keys
    && (forall other :: other in s.rows && other != id ==> s'.rows[other] == s.rows[other])
    && (forall other :: other != id ==> Lookup(s'.loaded, other) == Lookup(s.loaded, other))
    && (id !in s.rows ==> s' == s)
    && (id in s.rows ==>
          var row, row' := s.rows[id], s'.rows[id];
          && Stored(row.access, row'.access, change)
          && row' == row.(access := row'.access, enabled := row'.enabled)
          && (row'.enabled <==> row.enabled && MayRun(s.disk, id, row'.access, compiles))
          && (!row.enabled ==> s'.loaded == s.loaded)
          && (row.enabled && !row'.enabled ==> id !in s'.loaded)
          && (row.enabled && row'.enabled ==>
                Lookup(s'.loaded, id) == Some(Instance(s.disk[id].content.manifest.value, row'.access))))
  }

  lemma MayRunIs(s: State, id: Name, access: Access, compiles: bool)
    ensures MayRun(s.disk, id, access, compiles) <==>
              Loads(s, id, access, compiles) && Satisfied(ManifestOnDisk(s.disk, id).value, access)
    ensures ManifestOnDisk(s.disk, id).Some? ==>
              id in s.disk && s.disk[id].Package? && s.disk[id].content.manifest == ManifestOnDisk(s.disk, id)
  {
  }

  lemma ChangeIsStored(access: Access, change: Change)
    ensures Stored(access, change.On(access), change)
  {
  }

  lemma UpdatedIs(s: State, id: Name, change: Change, compiles: bool)
    ensures SettingsUpdated(s, Apply(s, Update(id, change, compiles)), id, change, compiles)
  {
    if id in s.rows {
      MayRunIs(s, id, change.On(s.rows[id].access), compiles);
      ChangeIsStored(s.rows[id].access, change);
      hide MayRun, Satisfied, Readable, Grants, Stored, ManifestOnDisk;
    }
  }

  lemma WrittenTwice<V>(m: map<Name, V>, id: Name, first: V, second: V)
    ensures m[id := first][id := second] == m[id := second] && (m - {id})[id := second] == m[id := second]
    ensures m[id := second] - {id} == m - {id}
  {
  }

  lemma UpdateCases(s: State, id: Name, change: Change, compiles: bool)
    requires id in s.rows
    ensures var access, m, s' := change.On(s.rows[id].access), ManifestOnDisk(s.disk, id), Apply(s, Update(id, change, compiles));
            if !s.rows[id].enabled then s' == s.(rows := s.rows[id := s.rows[id].(access := access)])
            else if (m.Some? && !Satisfied(m.value, access)) || !Loads(s, id, access, compiles)
            then s' == s.(rows := s.rows[id := s.rows[id].(access := access, enabled := false)], loaded := s.loaded - {id})
            else s' == s.(rows := s.rows[id := s.rows[id].(access := access)], loaded := s.loaded[id := InstanceOf(s, id, access)])
  {
    hide Satisfied, Loads;
  }

  /** What a sync makes of one name: rows follow readable packages, and a changed package is disabled. */
  predicate SyncsTo(row: Option<Row>, file: Option<File>, row': Option<Row>) {
    var content := if file.Some? && file.value.Package? then Some(file.value.content) else None;
    && (row'.Some? <==> content.Some? && (row.Some? || content.value.manifest.Some?))
    && (row'.Some? && row.Some? && row.value.content == content.value ==> row' == row)
    && (row'.Some? && row.Some? && row.value.content != content.value ==>
          && !row'.value.enabled && row'.value.access == row.value.access
          && (if content.value.manifest.Some?
              then row'.value.content == content.value && Some(row'.value.manifest) == content.value.manifest
              else row'.value.content == row.value.content && row'.value.manifest == row.value.manifest))
    && (row'.Some? && row.None? ==>
          row'.value == Row(content.value, content.value.manifest.value, Access(Unset, false, Unset, false), false))
  }

  /** An array without some elements; the others stay, as often as they were there. */
  ghost predicate TakenOff(g: Grant, g': Grant, gone: set<Item>) {
    if g.Listed? then g'.Listed? && forall item :: multiset(g'.items)[item] == if item in gone then 0 else multiset(g.items)[item]
    else g' == g
  }

  predicate IsEmpty(g: Grant) {
    g.Unset? || (g.Listed? && g.items == [])
  }

  /** A deletion that could be cleaned up: the user is off the lists, and plugins left without a user they want are disabled. */
  ghost predicate UserTakenOff(rows: map<Name, Row>, rows': map<Name, Row>, user: Name) {
    && rows'.Keys == rows.Keys
    && forall id :: id in rows ==>
         var row, row' := rows[id], rows'[id];
         && TakenOff(row.access.users, row'.access.users, {Item(user, true)})
         && row' == row.(access := row.access.(users := row'.access.users), enabled := row'.enabled)
         && (row'.enabled <==> row.enabled && (row.access.allUsers || !row.manifest.wantsUsers || !IsEmpty(row'.access.users)))
  }

  /** The same for a library, whose number may also be written in quotes. */
  ghost predicate LibraryTakenOff(rows: map<Name, Row>, rows': map<Name, Row>, library: Name) {
    && rows'.Keys == rows.Keys
    && forall id :: id in rows ==>
         var row, row' := rows[id], rows'[id];
         && TakenOff(row.access.libraries, row'.access.libraries, {Item(library, true), Item(library, false)})
         && row' == row.(access := row.access.(libraries := row'.access.libraries), enabled := row'.enabled)
         && (row'.enabled <==> row.enabled && (row.access.allLibraries || !row.manifest.wantsLibraries || !IsEmpty(row'.access.libraries)))
  }

  lemma {:induction false} WithoutCounts(items: seq<Item>, gone: set<Item>)
    ensures forall item :: multiset(Without(items, gone))[item] == if item in gone then 0 else multiset(items)[item]
  {
    if items != [] {
      var last := items[|items| - 1];
      WithoutCounts(items[..|items| - 1], gone);
      assert items == items[..|items| - 1] + [last];
    }
  }

  lemma DeletionsTakeOff(rows: map<Name, Row>, gone: Name)
    ensures UserTakenOff(rows, map id | id in rows :: WithoutUser(rows[id], gone), gone)
    ensures LibraryTakenOff(rows, map id | id in rows :: WithoutLibrary(rows[id], gone), gone)
  {
    forall id | id in rows && rows[id].access.users.Listed?
      ensures TakenOff(rows[id].access.users, WithoutUser(rows[id], gone).access.users, {Item(gone, true)})
    {
      WithoutCounts(rows[id].access.users.items, UserItems(gone));
    }
    forall id | id in rows && rows[id].access.libraries.Listed?
      ensures TakenOff(rows[id].access.libraries, WithoutLibrary(rows[id], gone).access.libraries, {Item(gone, true), Item(gone, false)})
    {
      WithoutCounts(rows[id].access.libraries.items, LibraryItems(gone));
    }
    hide Without, TakenOff, UserItems, LibraryItems;
  }

  lemma SyncIs(s: State, id: Name)
    ensures SyncsTo(Lookup(s.rows, id), Lookup(s.disk, id), Lookup(Synced(s).rows, id))
    ensures Lookup(Synced(s).loaded, id) ==
              if id in s.rows && s.rows[id].enabled && !(id in Synced(s).rows && Synced(s).rows[id].enabled) then None else Lookup(s.loaded, id)
  {
  }

  class PluginManager {
    var rows: map<Name, Row>
    var disk: map<Name, File>
    var loaded: map<Name, Instance>

    function View(): State
      reads this
    {
      State(rows, disk, loaded)
    }

    method Load(id: Name, access: Access, compiles: bool) returns (ok: bool)
      modifies `loaded
      ensures ok == Loads(old(View()), id, access, compiles)
      ensures loaded == if ok then old(loaded)[id := InstanceOf(old(View()), id, access)] else old(loaded)
    {
      if !access.users.Parses() || !access.libraries.Parses() {
        return false;
      }
      var manifest := ManifestOnDisk(disk, id);
      if manifest.None? || !compiles {
        return false;
      }
      loaded := loaded[id := Instance(manifest.value, access)];
      return true;
    }

    method EnablePlugin(id: Name, compiles: bool) returns (outcome: Outcome)
      modifies `rows, `loaded
      ensures View() == Apply(old(View()), Enable(id, compiles))
      ensures outcome.Done? <==> id in old(rows) && (old(rows)[id].enabled || MayRun(disk, id, old(rows)[id].access, compiles))
      ensures if outcome.Done? && !old(rows)[id].enabled then
                && id in disk && disk[id].Package? && disk[id].content.manifest.Some?
                && rows == old(rows)[id := old(rows)[id].(enabled := true)]
                && loaded == old(loaded)[id := Instance(disk[id].content.manifest.value, old(rows)[id].access)]
              else rows == old(rows) && loaded == old(loaded)
      ensures outcome.NotFound? <==> id !in old(rows)
      ensures outcome.Done? <==> id in rows && rows[id].enabled
      ensures outcome.GateClosed? ==> !GatesOpen(old(View()), id)
    {
      if id !in rows {
        return NotFound;
      }
      var plugin := rows[id];
      if plugin.enabled {
        return Done;
      }
      var manifest := ManifestOnDisk(disk, id);
      if manifest.None? || !Satisfied(manifest.value, plugin.access) {
        return GateClosed;
      }
      var ok := Load(id, plugin.access, compiles);
      if !ok {
        return LoadFailed;
      }
      rows := rows[id := plugin.(enabled := true)];
      return Done;
    }

    method DisablePlugin(id: Name) returns (outcome: Outcome)
      modifies `rows, `loaded
      ensures View() == Apply(old(View()), Disable(id))
      ensures outcome.Done? <==> id in old(rows)
      ensures if id in old(rows) && old(rows)[id].enabled
              then rows == old(rows)[id := old(rows)[id].(enabled := false)] && loaded == old(loaded) - {id}
              else rows == old(rows) && loaded == old(loaded)
    {
      if id !in rows {
        return NotFound;
      }
      if rows[id].enabled {
        loaded := loaded - {id};
        rows := rows[id := rows[id].(enabled := false)];
      }
      return Done;
    }

    /** updatePluginSettings; stored first, then reloaded, and disabled again if that fails. */
    method UpdateSettings(id: Name, change: Change, compiles: bool) returns (outcome: Outcome)
      modifies `rows, `loaded
      ensures View() == Apply(old(View()), Update(id, change, compiles))
      ensures outcome.NotFound? <==> id !in old(rows)
      ensures outcome.LoadFailed? ==> !rows[id].enabled && id !in loaded
      ensures SettingsUpdated(old(View()), View(), id, change, compiles)
    {
      if id !in rows {
        assert SettingsUpdated(View(), View(), id, change, compiles);
        return NotFound;
      }
      ghost var s := View();
      UpdatedIs(s, id, change, compiles);
      UpdateCases(s, id, change, compiles);
      hide Apply, SettingsUpdated, Stored, MayRun, Satisfied, Loads;
      var wasEnabled := rows[id].enabled;
      var plugin := rows[id].(access := change.On(rows[id].access));
      if wasEnabled {
        var manifest := ManifestOnDisk(disk, id);
        if manifest.Some? && !Satisfied(manifest.value, plugin.access) {
          loaded := loaded - {id};
          rows := rows[id := plugin.(enabled := false)];
          return Done;
        }
      }
      rows := rows[id := plugin];
      if wasEnabled {
        loaded := loaded - {id};
        var ok := Load(id, plugin.access, compiles);
        if !ok {
          WrittenTwice(s.rows, id, plugin, plugin.(enabled := false));
          rows := rows[id := plugin.(enabled := false)];
          return LoadFailed;
        }
        WrittenTwice(s.loaded, id, loaded[id], loaded[id]);
      }
      return Done;
    }

    /** One file of the plugins folder. */
    method SyncFile(name: Name, file: File) returns (processed: bool)
      modifies `rows, `loaded
      ensures processed == file.Package?
      ensures var row := if processed then SyncedRow(Lookup(old(rows), name), Some(file)) else Lookup(old(rows), name);
              && rows == (if row.Some? then old(rows)[name := row.value] else old(rows) - {name})
              && loaded == (if name in old(rows) && old(rows)[name].enabled && !(row.Some? && row.value.enabled)
                            then old(loaded) - {name} else old(loaded))
    {
      if file.Unreadable? {
        return false;
      }
      processed := true;
      var c, exist := file.content, name in rows;
      if exist && rows[name].content == c {
        return;
      }
      if exist && rows[name].enabled {
        loaded := loaded - {name};
      }
      if c.manifest.None? {
        if exist {
          rows := rows[name := rows[name].(enabled := false)];
        }
      } else if exist {
        rows := rows[name := rows[name].(content := c, manifest := c.manifest.value, enabled := false)];
      } else {
        rows := rows[name := Row(c, c.manifest.value, NO_ACCESS, false)];
      }
    }

    /** removePluginFromDB. */
    method RemovePlugin(name: Name)
      requires name in rows
      modifies `rows, `loaded
      ensures rows == old(rows) - {name}
      ensures loaded == if old(rows)[name].enabled then old(loaded) - {name} else old(loaded)
    {
      if rows[name].enabled {
        loaded := loaded - {name};
      }
      rows := rows - {name};
    }

    /** syncPlugins: first the files in the folder, then the rows that no file has accounted for. */
    method SyncPlugins()
      modifies `rows, `loaded
      ensures View() == Apply(old(View()), Sync)
      ensures forall id :: SyncsTo(Lookup(old(rows), id), Lookup(disk, id), Lookup(rows, id))
      ensures forall id :: Lookup(loaded, id) ==
                if id in old(rows) && old(rows)[id].enabled && !(id in rows && rows[id].enabled) then None else Lookup(old(loaded), id)
    {
      hide SyncedRow, SyncedSoFar, Unloads, SyncsTo;
      ghost var s := View();
      var pluginsInDB, files := rows.Keys, disk.Keys;
      ghost var done: set<Name> := {};
      NothingSynced(s);
      while files != {}
        invariant files <= disk.Keys && disk == s.disk && pluginsInDB == s.rows.Keys - done
        invariant done <= disk.Keys - files
        invariant forall id :: id in disk.Keys - files - done ==> disk[id].Unreadable?
        invariant SyncedSoFar(s, done, rows, loaded)
      {
        var name := Pick(files);
        ghost var rows0, loaded0 := rows, loaded;
        files := files - {name};
        var processed := SyncFile(name, disk[name]);
        if processed {
          OneMoreSynced(s, done, rows0, loaded0, name, rows, loaded);
          pluginsInDB, done := pluginsInDB - {name}, done + {name};
        } else {
          UntouchedRow(s, done, rows0, name);
        }
      }
      while pluginsInDB != {}
        invariant pluginsInDB == s.rows.Keys - done && disk == s.disk
        invariant forall id :: id in s.disk && id !in done ==> s.disk[id].Unreadable?
        invariant forall id :: id in done ==> id in s.rows.Keys + s.disk.Keys
        invariant SyncedSoFar(s, done, rows, loaded)
      {
        var name := Pick(pluginsInDB);
        ghost var rows0, loaded0 := rows, loaded;
        UntouchedRow(s, done, rows, name);
        GoneOrUnreadable(s, name);
        RemovePlugin(name);
        OneMoreSynced(s, done, rows0, loaded0, name, rows, loaded);
        pluginsInDB, done := pluginsInDB - {name}, done + {name};
      }
      RestIsUntouched(s, done, rows, loaded);
      forall id
        ensures SyncsTo(Lookup(s.rows, id), Lookup(s.disk, id), Lookup(rows, id))
        ensures Lookup(loaded, id) == if id in s.rows && s.rows[id].enabled && !(id in rows && rows[id].enabled) then None else Lookup(s.loaded, id)
      {
        SyncIs(s, id);
      }
    }

    /** UnloadDisabledPlugins. */
    method UnloadDisabledPlugins()
      modifies `loaded
      ensures View() == UnloadDisabled(old(View()))
      ensures forall id :: Lookup(loaded, id) == if id in rows && !rows[id].enabled then None else Lookup(old(loaded), id)
    {
      ghost var before := loaded;
      var todo := set id | id in rows && !rows[id].enabled;
      ghost var all := todo;
      while todo != {}
        invariant todo <= all
        invariant loaded == map id | id in before && id !in all - todo :: before[id]
      {
        var id := Pick(todo);
        todo := todo - {id};
        if id in loaded {
          loaded := loaded - {id};
        }
      }
    }

    /** loadEnabledPlugins. */
    method LoadEnabledPlugins(loadable: set<Name>)
      requires loaded == map[]
      modifies `rows, `loaded
      ensures View() == EnabledLoaded(old(View()), loadable)
      ensures EnabledOnly(old(View()), View(), loadable)
    {
      hide EnabledLoaded, LoadedSoFar, Loads, EnabledOnly;
      ghost var s := View();
      var todo := rows.Keys;
      NothingLoadedYet(s, loadable);
      while todo != {}
        invariant todo <= s.rows.Keys && rows.Keys == s.rows.Keys && disk == s.disk
        invariant LoadedSoFar(s, loadable, todo, rows, loaded)
      {
        var id := Pick(todo);
        OneMoreLoaded(s, loadable, todo, rows, loaded, id);
        LoadsIsLocal(s, View(), id, rows[id].access, id in loadable);
        todo := todo - {id};
        if rows[id].enabled {
          var ok := Load(id, rows[id].access, id in loadable);
          if !ok {
            rows := rows[id := rows[id].(enabled := false)];
          }
        }
      }
      AllLoaded(s, loadable, rows, loaded);
      EnabledLoadedIs(s, loadable);
    }

    /** Start, in a new process. */
    method Start(loadable: set<Name>)
      modifies `rows, `loaded
      ensures View() == Apply(old(View()), Event.Start(loadable))
    {
      ghost var s := View();
      loaded := map[];
      assert View() == s.(loaded := map[]);
      SyncPlugins();
      assert loaded == map[];
      LoadEnabledPlugins(loadable);
    }

    /** The clean-up statements of a user's deletion, if they succeed, and the unloading that follows in any case. */
    method DeleteUser(user: Name) returns (cleaned: bool)
      modifies `rows, `loaded
      ensures View() == Apply(old(View()), Event.DeleteUser(user))
      ensures cleaned <==> forall id :: id in old(rows) ==> !old(rows)[id].access.users.Malformed?
      ensures if cleaned then UserTakenOff(old(rows), rows, user) else rows == old(rows)
      ensures forall id :: Lookup(loaded, id) == if id in rows && !rows[id].enabled then None else Lookup(old(loaded), id)
    {
      hide TakenOff, UserTakenOff, LibraryTakenOff, Without;
      cleaned := !exists id :: id in rows && rows[id].access.users.Malformed?;
      if cleaned {
        ghost var before := rows;
        rows := map id | id in rows ::
          if rows[id].access.users.Listed?
          then rows[id].(access := rows[id].access.(users := Listed(Without(rows[id].access.users.items, UserItems(user)))))
          else rows[id];
        rows := map id | id in rows ::
          if rows[id].enabled && !rows[id].access.allUsers && rows[id].manifest.wantsUsers && rows[id].access.users.EmptyInSql()
          then rows[id].(enabled := false) else rows[id];
        assert rows == map id | id in before :: WithoutUser(before[id], user);
        DeletionsTakeOff(before, user);
      }
      UnloadDisabledPlugins();
    }

    /** The same for a library. */
    method DeleteLibrary(library: Name) returns (cleaned: bool)
      modifies `rows, `loaded
      ensures View() == Apply(old(View()), Event.DeleteLibrary(library))
      ensures cleaned <==> forall id :: id in old(rows) ==> !old(rows)[id].access.libraries.Malformed?
      ensures if cleaned then LibraryTakenOff(old(rows), rows, library) else rows == old(rows)
      ensures forall id :: Lookup(loaded, id) == if id in rows && !rows[id].enabled then None else Lookup(old(loaded), id)
    {
      hide TakenOff, UserTakenOff, LibraryTakenOff, Without;
      cleaned := !exists id :: id in rows && rows[id].access.libraries.Malformed?;
      if cleaned {
        ghost var before := rows;
        rows := map id | id in rows ::
          if rows[id].access.libraries.Listed?
          then rows[id].(access := rows[id].access.(libraries := Listed(Without(rows[id].access.libraries.items, LibraryItems(library)))))
          else rows[id];
        rows := map id | id in rows ::
          if rows[id].enabled && !rows[id].access.allLibraries && rows[id].manifest.wantsLibraries && rows[id].access.libraries.EmptyInSql()
          then rows[id].(enabled := false) else rows[id];
        assert rows == map id | id in before :: WithoutLibrary(before[id], library);
        DeletionsTakeOff(before, library);
      }
      UnloadDisabledPlugins();
    }
  }

  lemma NothingSynced(s: State)
    ensures SyncedSoFar(s, {}, s.rows, s.loaded)
  {
  }

  lemma UntouchedRow(s: State, done: set<Name>, rows: map<Name, Row>, name: Name)
    requires name !in done
    requires exists loaded :: SyncedSoFar(s, done, rows, loaded)
    ensures Lookup(rows, name) == Lookup(s.rows, name)
    ensures (if Lookup(s.rows, name).Some? then rows[name := Lookup(s.rows, name).value] else rows - {name}) == rows
  {
  }

  /** One name is done as SyncFile and RemovePlugin do it. */
  lemma OneMoreSynced(s: State, done: set<Name>, rows: map<Name, Row>, loaded: map<Name, Instance>, name: Name,
                      rows': map<Name, Row>, loaded': map<Name, Instance>)
    requires SyncedSoFar(s, done, rows, loaded) && name !in done
    requires var row := SyncedRow(Lookup(rows, name), Lookup(s.disk, name));
             && rows' == (if row.Some? then rows[name := row.value] else rows - {name})
             && loaded' == (if name in rows && rows[name].enabled && !(row.Some? && row.value.enabled)
                            then loaded - {name} else loaded)
    ensures SyncedSoFar(s, done + {name}, rows', loaded')
  {
    hide SyncedRow;
    assert Lookup(rows, name) == Lookup(s.rows, name);
    assert Lookup(loaded, name) == Lookup(s.loaded, name);
  }

  // ----- loadEnabledPlugins, row by row -----

  ghost predicate LoadedSoFar(s: State, loadable: set<Name>, todo: set<Name>, rows: map<Name, Row>, loaded: map<Name, Instance>) {
    && rows.Keys == s.rows.Keys
    && (forall id :: id in s.rows ==> rows[id] == if id in todo then s.rows[id] else EnabledLoaded(s, loadable).rows[id])
    && (forall id :: Lookup(loaded, id) == if id in todo then None else Lookup(EnabledLoaded(s, loadable).loaded, id))
  }

  lemma NothingLoadedYet(s: State, loadable: set<Name>)
    requires s.loaded == map[]
    ensures LoadedSoFar(s, loadable, s.rows.Keys, s.rows, s.loaded)
  {
  }

  lemma LoadsIsLocal(s: State, s': State, id: Name, access: Access, compiles: bool)
    requires s'.disk == s.disk
    ensures Loads(s', id, access, compiles) == Loads(s, id, access, compiles)
  {
  }

  lemma OneMoreLoaded(s: State, loadable: set<Name>, todo: set<Name>, rows: map<Name, Row>, loaded: map<Name, Instance>, id: Name)
    requires LoadedSoFar(s, loadable, todo, rows, loaded) && id in todo && id in s.rows
    ensures rows[id] == s.rows[id]
    ensures var loads := Loads(s, id, rows[id].access, id in loadable);
            && (rows[id].enabled && loads ==> ManifestOnDisk(s.disk, id).Some?)
            && LoadedSoFar(s, loadable, todo - {id},
                 if rows[id].enabled && !loads then rows[id := rows[id].(enabled := false)] else rows,
                 if rows[id].enabled && loads then loaded[id := InstanceOf(s, id, rows[id].access)] else loaded)
  {
  }

  lemma AllLoaded(s: State, loadable: set<Name>, rows: map<Name, Row>, loaded: map<Name, Instance>)
    requires LoadedSoFar(s, loadable, {}, rows, loaded)
    ensures State(rows, s.disk, loaded) == EnabledLoaded(s, loadable)
  {
    forall id ensures (id in loaded <==> id in EnabledLoaded(s, loadable).loaded)
                      && (id in loaded ==> loaded[id] == EnabledLoaded(s, loadable).loaded[id]) {
      assert Lookup(loaded, id) == Lookup(EnabledLoaded(s, loadable).loaded, id);
    }
  }

  lemma GoneOrUnreadable(s: State, name: Name)
    requires name in s.disk ==> s.disk[name].Unreadable?
    ensures SyncedRow(Lookup(s.rows, name), Lookup(s.disk, name)) == None
  {
  }

  lemma RestIsUntouched(s: State, done: set<Name>, rows: map<Name, Row>, loaded: map<Name, Instance>)
    requires SyncedSoFar(s, done, rows, loaded) && s.rows.Keys <= done
    requires forall id :: id in s.disk && id !in done ==> s.disk[id].Unreadable?
    ensures State(rows, s.disk, loaded) == Synced(s)
  {
    var all := done + s.disk.Keys;
    assert SyncedSoFar(s, all, rows, loaded);
    AllSynced(s, all, rows, loaded);
  }
}
