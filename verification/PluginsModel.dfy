/**
 The life of plugins: rows in the database, packages in the plugins folder, and the plugins
 that are loaded. A plugin's manifest says whether it wants access to users or libraries;
 the row says to which.
 */
module PluginsModel {
  import opened Options

  datatype Name = Name(text: string)

  datatype Manifest = Manifest(wantsUsers: bool, wantsLibraries: bool)

  /** The bytes of a package; the SHA-256 of a package is taken to determine them. */
  datatype Content = Content(version: int, manifest: Option<Manifest>)

  datatype File = Unreadable | Package(content: Content)

  /** An element of a JSON array; typed if it is a string among users, an integer among libraries. */
  datatype Item = Item(id: Name, typed: bool)

  /** A JSON array in a text column. */
  datatype Grant = Unset | Malformed | Listed(items: seq<Item>)
  {
    /** The manager reads arrays whose elements are all of the right type; the database reads any array. */
    predicate Parses() {
      !Malformed? && (Listed? ==> forall i :: 0 <= i < |items| ==> items[i].typed)
    }

    predicate NonEmpty() {
      Listed? && items != [] && Parses()
    }

    predicate EmptyInSql() {
      Unset? || (Listed? && items == [])
    }
  }

  datatype Access = Access(users: Grant, allUsers: bool, libraries: Grant, allLibraries: bool)

  datatype Row = Row(content: Content, manifest: Manifest, access: Access, enabled: bool)

  /** What a loaded plugin was given when it was loaded. */
  datatype Instance = Instance(manifest: Manifest, access: Access)

  datatype State = State(rows: map<Name, Row>, disk: map<Name, File>, loaded: map<Name, Instance>)

  datatype Change = Config | Users(users: Grant, all: bool) | Libraries(libraries: Grant, all: bool)
  {
    function On(access: Access): Access {
      match this
      case Config => access
      case Users(users, all) => access.(users := users, allUsers := all)
      case Libraries(libraries, all) => access.(libraries := libraries, allLibraries := all)
    }
  }

  /** compiles and loadable tell which packages contain code that can be instantiated. */
  datatype Event =
    | Enable(id: Name, compiles: bool)
    | Disable(id: Name)
    | Update(id: Name, change: Change, compiles: bool)
    | Sync
    | DeleteUser(user: Name)
    | DeleteLibrary(library: Name)
    | Start(loadable: set<Name>)
    | DiskChange(disk: map<Name, File>)

  // ----- Permissions -----

  /** hasValidUsersConfig and hasValidLibrariesConfig, where the manifest asks for them. */
  predicate Satisfied(m: Manifest, a: Access) {
    && (m.wantsUsers ==> a.allUsers || a.users.NonEmpty())
    && (m.wantsLibraries ==> a.allLibraries || a.libraries.NonEmpty())
  }

  /** readManifest. */
  function ManifestOnDisk(disk: map<Name, File>, id: Name): Option<Manifest> {
    if id in disk && disk[id].Package? then disk[id].content.manifest else None
  }

  /** loadPluginWithConfig: the grants must parse, and the package must open and compile. */
  predicate Loads(s: State, id: Name, access: Access, compiles: bool) {
    ManifestOnDisk(s.disk, id).Some? && access.users.Parses() && access.libraries.Parses() && compiles
  }

  function InstanceOf(s: State, id: Name, access: Access): Instance
    requires ManifestOnDisk(s.disk, id).Some?
  {
    Instance(ManifestOnDisk(s.disk, id).value, access)
  }

  // ----- Operations -----

  /** checkPermissionGates, on the manifest found on disk. */
  predicate GatesOpen(s: State, id: Name)
    requires id in s.rows
  {
    ManifestOnDisk(s.disk, id).Some? && Satisfied(ManifestOnDisk(s.disk, id).value, s.rows[id].access)
  }

  function Enabled(s: State, id: Name, compiles: bool): State {
    if id !in s.rows || s.rows[id].enabled || !GatesOpen(s, id) || !Loads(s, id, s.rows[id].access, compiles) then s
    else s.(rows := s.rows[id := s.rows[id].(enabled := true)],
            loaded := s.loaded[id := InstanceOf(s, id, s.rows[id].access)])
  }

  function Disabled(s: State, id: Name): State {
    if id !in s.rows || !s.rows[id].enabled then s
    else s.(rows := s.rows[id := s.rows[id].(enabled := false)], loaded := s.loaded - {id})
  }

  /** An enabled plugin is reloaded, unless it has lost a permission or cannot be loaded any more. */
  function Updated(s: State, id: Name, change: Change, compiles: bool): State {
    if id !in s.rows then s
    else
      var access := change.On(s.rows[id].access);
      var m := ManifestOnDisk(s.disk, id);
      if !s.rows[id].enabled then s.(rows := s.rows[id := s.rows[id].(access := access)])
      else if (m.Some? && !Satisfied(m.value, access)) || !Loads(s, id, access, compiles) then
        s.(rows := s.rows[id := s.rows[id].(access := access, enabled := false)], loaded := s.loaded - {id})
      else s.(rows := s.rows[id := s.rows[id].(access := access)], loaded := s.loaded[id := InstanceOf(s, id, access)])
  }

  const NO_ACCESS := Access(Unset, false, Unset, false)

  /** What syncPlugins makes of one name; a package whose hash cannot be computed counts as removed. */
  function SyncedRow(row: Option<Row>, file: Option<File>): Option<Row> {
    if file.None? || file.value.Unreadable? then None
    else
      var c := file.value.content;
      if row.Some? && row.value.content == c then row
      else if c.manifest.None? then (if row.Some? then Some(row.value.(enabled := false)) else None)
      else if row.None? then Some(Row(c, c.manifest.value, NO_ACCESS, false))
      else Some(row.value.(content := c, manifest := c.manifest.value, enabled := false))
  }

  function Lookup<V>(m: map<Name, V>, id: Name): Option<V> {
    if id in m then Some(m[id]) else None
  }

  function Synced(s: State): State {
    var rows := map id | id in s.rows.Keys + s.disk.Keys && SyncedRow(Lookup(s.rows, id), Lookup(s.disk, id)).Some? ::
      SyncedRow(Lookup(s.rows, id), Lookup(s.disk, id)).value;
    s.(rows := rows,
       loaded := map id | id in s.loaded && !(id in s.rows && s.rows[id].enabled && !(id in rows && rows[id].enabled)) :: s.loaded[id])
  }

  function Without(items: seq<Item>, gone: set<Item>): seq<Item> {
    if items == [] then []
    else Without(items[..|items| - 1], gone) + if items[|items| - 1] in gone then [] else [items[|items| - 1]]
  }

  function Stripped(g: Grant, gone: set<Item>): Grant {
    if g.Listed? then Listed(Without(g.items, gone)) else g
  }

  /** A user is compared as a string. */
  function UserItems(user: Name): set<Item> {
    {Item(user, true)}
  }

  /** A library is compared after a CAST, which reads a number in quotes as well. */
  function LibraryItems(library: Name): set<Item> {
    {Item(library, true), Item(library, false)}
  }

  /** The two UPDATE statements run when a user is deleted; the manifest is the one in the database. */
  function WithoutUser(row: Row, user: Name): Row {
    var access := row.access.(users := Stripped(row.access.users, UserItems(user)));
    row.(access := access,
         enabled := row.enabled && !(!access.allUsers && row.manifest.wantsUsers && access.users.EmptyInSql()))
  }

  function WithoutLibrary(row: Row, library: Name): Row {
    var access := row.access.(libraries := Stripped(row.access.libraries, LibraryItems(library)));
    row.(access := access,
         enabled := row.enabled && !(!access.allLibraries && row.manifest.wantsLibraries && access.libraries.EmptyInSql()))
  }

  /** UnloadDisabledPlugins. */
  function UnloadDisabled(s: State): State {
    s.(loaded := map id | id in s.loaded && !(id in s.rows && !s.rows[id].enabled) :: s.loaded[id])
  }

  predicate UsersReadable(s: State) {
    forall id :: id in s.rows ==> !s.rows[id].access.users.Malformed?
  }

  predicate LibrariesReadable(s: State) {
    forall id :: id in s.rows ==> !s.rows[id].access.libraries.Malformed?
  }

  /** A malformed array anywhere makes the clean-up fail; the deletion goes on without it. */
  function UserDeleted(s: State, user: Name): State {
    UnloadDisabled(if UsersReadable(s) then s.(rows := map id | id in s.rows :: WithoutUser(s.rows[id], user)) else s)
  }

  function LibraryDeleted(s: State, library: Name): State {
    UnloadDisabled(if LibrariesReadable(s) then s.(rows := map id | id in s.rows :: WithoutLibrary(s.rows[id], library)) else s)
  }

  /** loadEnabledPlugins, with nothing loaded yet; a plugin that cannot be loaded is disabled. */
  function EnabledLoaded(s: State, loadable: set<Name>): State {
    s.(rows := map id | id in s.rows ::
         s.rows[id].(enabled := s.rows[id].enabled && Loads(s, id, s.rows[id].access, id in loadable)),
       loaded := map id | id in s.rows && s.rows[id].enabled && Loads(s, id, s.rows[id].access, id in loadable) ::
         InstanceOf(s, id, s.rows[id].access))
  }

  /** A new process: the plugins folder is synchronized before anything is loaded. */
  function Started(s: State, loadable: set<Name>): State {
    EnabledLoaded(Synced(s.(loaded := map[])), loadable)
  }

  function Apply(s: State, e: Event): State {
    match e
    case Enable(id, compiles) => Enabled(s, id, compiles)
    case Disable(id) => Disabled(s, id)
    case Update(id, change, compiles) => Updated(s, id, change, compiles)
    case Sync => Synced(s)
    case DeleteUser(user) => UserDeleted(s, user)
    case DeleteLibrary(library) => LibraryDeleted(s, library)
    case Start(loadable) => Started(s, loadable)
    case DiskChange(disk) => s.(disk := disk)
  }

  // ----- Invariants -----

  /** Nothing is loaded that is not enabled. */
  predicate LoadedAreEnabled(s: State) {
    forall id :: id in s.loaded ==> id in s.rows && s.rows[id].enabled
  }

  /** Every enabled plugin that wants users or libraries has been given some. */
  predicate EnabledAreGranted(s: State) {
    forall id :: id in s.rows && s.rows[id].enabled ==> Satisfied(s.rows[id].manifest, s.rows[id].access)
  }

  /** Every loaded plugin was given what the manifest in its own package asks for. */
  predicate LoadedAreGranted(s: State) {
    forall id :: id in s.loaded ==> Satisfied(s.loaded[id].manifest, s.loaded[id].access)
  }

  /** The manager can read the lists of every enabled plugin. */
  predicate EnabledParse(s: State) {
    forall id :: id in s.rows && s.rows[id].enabled ==> s.rows[id].access.users.Parses() && s.rows[id].access.libraries.Parses()
  }

  predicate RowsMatchContent(s: State) {
    forall id :: id in s.rows ==> s.rows[id].content.manifest == Some(s.rows[id].manifest)
  }

  predicate Valid(s: State) {
    LoadedAreEnabled(s) && EnabledAreGranted(s) && LoadedAreGranted(s) && EnabledParse(s) && RowsMatchContent(s)
  }

  /** The package of a plugin is the one that its row was made from. */
  predicate InSync(s: State, id: Name) {
    id in s.rows && id in s.disk && s.disk[id].Package? ==> s.disk[id].content == s.rows[id].content
  }

  /** The event does not rely on a package that has changed since the last sync. */
  predicate WithoutDrift(s: State, e: Event) {
    match e
    case Enable(id, _) => InSync(s, id)
    case Update(id, _, _) => InSync(s, id)
    case _ => true
  }

  // ----- One step -----

  /** Whatever happens, on disk as well, nothing stays loaded without being enabled. */
  lemma LoadedStayEnabled(s: State, e: Event)
    requires LoadedAreEnabled(s)
    ensures LoadedAreEnabled(Apply(s, e))
  {
  }

  lemma {:induction false} WithoutHas(items: seq<Item>, gone: set<Item>)
    ensures forall item :: item in Without(items, gone) <==> item in items && item !in gone
  {
    if items != [] {
      WithoutHas(items[..|items| - 1], gone);
      assert forall item :: item in items <==> item in items[..|items| - 1] || item == items[|items| - 1];
    }
  }

  lemma StrippedParses(g: Grant, gone: set<Item>)
    requires g.Parses()
    ensures Stripped(g, gone).Parses()
    ensures Stripped(g, gone).EmptyInSql() <==> !Stripped(g, gone).NonEmpty()
  {
    if g.Listed? {
      WithoutHas(g.items, gone);
      var items := Without(g.items, gone);
      forall i | 0 <= i < |items| ensures items[i].typed {
        assert items[i] in items;
      }
    }
  }

  /** What a deletion leaves enabled still has lists that can be read, and what its manifest asks for. */
  lemma DeletionKeepsGrants(row: Row, gone: Name)
    requires row.enabled && Satisfied(row.manifest, row.access)
    requires row.access.users.Parses() && row.access.libraries.Parses()
    ensures var row' := WithoutUser(row, gone);
            && row'.access.users.Parses() && row'.access.libraries.Parses()
            && (row'.enabled <==> Satisfied(row.manifest, row'.access))
    ensures var row' := WithoutLibrary(row, gone);
            && row'.access.users.Parses() && row'.access.libraries.Parses()
            && (row'.enabled <==> Satisfied(row.manifest, row'.access))
  {
    StrippedParses(row.access.users, UserItems(gone));
    StrippedParses(row.access.libraries, LibraryItems(gone));
  }

  lemma DeletionsKeepGrants(s: State, gone: Name)
    requires Valid(s)
    ensures EnabledAreGranted(UserDeleted(s, gone)) && EnabledParse(UserDeleted(s, gone))
    ensures EnabledAreGranted(LibraryDeleted(s, gone)) && EnabledParse(LibraryDeleted(s, gone))
  {
    hide WithoutUser, WithoutLibrary;
    forall id | id in s.rows
      ensures WithoutUser(s.rows[id], gone).enabled ==> s.rows[id].enabled
      ensures WithoutLibrary(s.rows[id], gone).enabled ==> s.rows[id].enabled
      ensures WithoutUser(s.rows[id], gone).manifest == WithoutLibrary(s.rows[id], gone).manifest == s.rows[id].manifest
    {
      DeletionDisables(s.rows[id], gone);
    }
    forall id | id in s.rows && s.rows[id].enabled
      ensures var r := WithoutUser(s.rows[id], gone);
              r.access.users.Parses() && r.access.libraries.Parses() && (r.enabled <==> Satisfied(s.rows[id].manifest, r.access))
      ensures var r := WithoutLibrary(s.rows[id], gone);
              r.access.users.Parses() && r.access.libraries.Parses() && (r.enabled <==> Satisfied(s.rows[id].manifest, r.access))
    {
      DeletionKeepsGrants(s.rows[id], gone);
    }
  }

  lemma DeletionDisables(row: Row, gone: Name)
    ensures WithoutUser(row, gone).enabled ==> row.enabled
    ensures WithoutLibrary(row, gone).enabled ==> row.enabled
    ensures WithoutUser(row, gone).manifest == WithoutLibrary(row, gone).manifest == row.manifest
  {
  }

  lemma SyncMatches(s: State)
    requires RowsMatchContent(s)
    ensures RowsMatchContent(Synced(s))
  {
  }

  lemma RowsStayMatched(s: State, e: Event)
    requires RowsMatchContent(s)
    ensures RowsMatchContent(Apply(s, e))
  {
    hide Satisfied, Stripped, Loads, Synced;
    if e.Sync? {
      SyncMatches(s);
    } else if e.Start? {
      SyncMatches(s.(loaded := map[]));
    }
  }

  lemma GrantsStay(s: State, e: Event)
    requires Valid(s) && WithoutDrift(s, e)
    ensures EnabledAreGranted(Apply(s, e))
  {
    if e.DeleteUser? {
      DeletionsKeepGrants(s, e.user);
    } else if e.DeleteLibrary? {
      DeletionsKeepGrants(s, e.library);
    }
  }

  lemma EnabledStayReadable(s: State, e: Event)
    requires Valid(s)
    ensures EnabledParse(Apply(s, e))
  {
    hide Satisfied;
    if e.DeleteUser? {
      DeletionsKeepGrants(s, e.user);
    } else if e.DeleteLibrary? {
      DeletionsKeepGrants(s, e.library);
    }
  }

  /** After a sync, an enabled plugin's package is the one its row was made from. */
  lemma SyncEndsDrift(s: State, id: Name)
    ensures var s' := Synced(s); id in s'.rows && s'.rows[id].enabled ==> InSync(s', id)
  {
  }

  lemma StartGrants(s: State, loadable: set<Name>)
    requires Valid(s)
    ensures LoadedAreGranted(Started(s, loadable))
  {
    var s1 := Synced(s.(loaded := map[]));
    forall id | id in Started(s, loadable).loaded
      ensures Satisfied(Started(s, loadable).loaded[id].manifest, Started(s, loadable).loaded[id].access)
    {
      SyncEndsDrift(s.(loaded := map[]), id);
      RowsStayMatched(s.(loaded := map[]), Sync);
    }
  }

  /** What is running has always been granted, even where a package has changed behind a row's back. */
  lemma InstancesStayGranted(s: State, e: Event)
    requires Valid(s)
    ensures LoadedAreGranted(Apply(s, e))
  {
    if e.Start? {
      StartGrants(s, e.loadable);
    }
  }

  lemma ValidStep(s: State, e: Event)
    requires Valid(s) && WithoutDrift(s, e)
    ensures Valid(Apply(s, e))
  {
    hide Apply;
    LoadedStayEnabled(s, e);
    GrantsStay(s, e);
    InstancesStayGranted(s, e);
    RowsStayMatched(s, e);
    EnabledStayReadable(s, e);
  }

  /** The gate looks at the package on disk; the row's own manifest wants more than is granted. */
  predicate GateMissed(s: State, e: Event) {
    match e
    case Enable(id, compiles) =>
      && id in s.rows && !s.rows[id].enabled && GatesOpen(s, id) && Loads(s, id, s.rows[id].access, compiles)
      && !Satisfied(s.rows[id].manifest, s.rows[id].access)
    case Update(id, change, compiles) =>
      && id in s.rows && s.rows[id].enabled
      && var access := change.On(s.rows[id].access);
         && Loads(s, id, access, compiles) && Satisfied(ManifestOnDisk(s.disk, id).value, access)
         && !Satisfied(s.rows[id].manifest, access)
    case _ => false
  }

  /** With packages changing at any time: an event keeps the grants exactly when its gate has not looked past the row. */
  lemma GrantsStayIff(s: State, e: Event)
    requires Valid(s)
    ensures EnabledAreGranted(Apply(s, e)) <==> !GateMissed(s, e)
  {
    match e
    case Enable(id, compiles) =>
      if GateMissed(s, e) {
        assert id in Apply(s, e).rows;
      }
    case Update(id, change, compiles) =>
      if GateMissed(s, e) {
        assert id in Apply(s, e).rows;
      }
    case _ =>
      GrantsStay(s, e);
  }

  /** A package that has dropped its wish for users since the last sync can be enabled without any. */
  lemma DriftExample() returns (s: State, e: Event)
    ensures Valid(s) && GateMissed(s, e) && !EnabledAreGranted(Apply(s, e))
  {
    var id, wants, wantsNot := Name("p"), Manifest(true, false), Manifest(false, false);
    s := State(map[id := Row(Content(1, Some(wants)), wants, NO_ACCESS, false)], map[id := Package(Content(2, Some(wantsNot)))], map[]);
    e := Enable(id, true);
    GrantsStayIff(s, e);
  }

  // ----- Runs -----

  ghost predicate IsRun(states: seq<State>, events: seq<Event>) {
    && |states| == |events| + 1
    && states[0].rows == map[] && states[0].loaded == map[]
    && forall i :: 0 <= i < |events| ==> states[i + 1] == Apply(states[i], events[i])
  }

  /** Loaded plugins are enabled at every moment of every run. */
  lemma {:induction false} LoadedAreAlwaysEnabled(states: seq<State>, events: seq<Event>, n: nat)
    requires IsRun(states, events) && n < |states|
    ensures forall id :: id in states[n].loaded ==> id in states[n].rows && states[n].rows[id].enabled
  {
    hide Apply;
    if n == 0 {
      NothingLoaded(states[0]);
    } else {
      LoadedAreAlwaysEnabled(states, events, n - 1);
      LoadedStayEnabled(states[n - 1], events[n - 1]);
    }
  }

  /** What happens in the plugins folder is not noticed before the next event that looks there. */
  lemma DiskChanges(s: State, disk: map<Name, File>)
    ensures Apply(s, DiskChange(disk)) == State(s.rows, disk, s.loaded)
  {
  }

  lemma NothingLoaded(s: State)
    requires s.rows == map[] && s.loaded == map[]
    ensures LoadedAreEnabled(s) && Valid(s)
  {
  }

  /**
   In a run in which no plugin is enabled or reconfigured while its package differs from the
   one last synchronized, every enabled plugin and every loaded one has the access it wants.
   */
  lemma {:induction false} GrantsHoldInRuns(states: seq<State>, events: seq<Event>, n: nat)
    requires IsRun(states, events) && n < |states|
    requires forall i :: 0 <= i < n ==> WithoutDrift(states[i], events[i])
    ensures var s := states[n];
            && (forall id :: id in s.rows && s.rows[id].enabled ==> Satisfied(s.rows[id].manifest, s.rows[id].access))
            && (forall id :: id in s.loaded ==> Satisfied(s.loaded[id].manifest, s.loaded[id].access))
    ensures Valid(states[n])
  {
    hide Apply, WithoutDrift;
    if n == 0 {
      NothingLoaded(states[0]);
    } else {
      GrantsHoldInRuns(states, events, n - 1);
      ValidStep(states[n - 1], events[n - 1]);
    }
  }

  // ----- Single operations -----

  /** A second sync finds nothing to do. */
  lemma SyncTwice(s: State)
    requires LoadedAreEnabled(s)
    ensures Synced(Synced(s)) == Synced(s)
  {
    var s1 := Synced(s);
    var s2 := Synced(s1);
    forall id ensures (id in s2.rows <==> id in s1.rows) && (id in s1.rows ==> s2.rows[id] == s1.rows[id]) {
      SyncedRows(s, id);
      SyncedRows(s1, id);
      SyncedRowTwice(Lookup(s.rows, id), Lookup(s.disk, id));
    }
    hide SyncedRow;
    assert s2.rows == s1.rows;
  }

  lemma SyncedRows(s: State, id: Name)
    ensures Lookup(Synced(s).rows, id) == SyncedRow(Lookup(s.rows, id), Lookup(s.disk, id)) && Synced(s).disk == s.disk
  {
  }

  lemma SyncedRowTwice(row: Option<Row>, file: Option<File>)
    ensures SyncedRow(SyncedRow(row, file), file) == SyncedRow(row, file)
  {
  }

  /**
   If no list is malformed, deleting a user takes it from every plugin's list and leaves the
   other entries; a plugin is disabled, and unloaded, exactly when it wants users and has lost
   the last one.
   */
  lemma UserDeletion(s: State, user: Name, id: Name)
    requires Valid(s) && id in s.rows && UsersReadable(s)
    ensures var s', users := UserDeleted(s, user), s.rows[id].access.users;
            && id in s'.rows
            && (users.Listed? ==> s'.rows[id].access.users.Listed? && forall item ::
                  item in s'.rows[id].access.users.items <==> item in users.items && item != Item(user, true))
            && (s'.rows[id].enabled <==> s.rows[id].enabled && Satisfied(s.rows[id].manifest, s'.rows[id].access))
            && (id in s'.loaded <==> id in s.loaded && s'.rows[id].enabled)
  {
    if s.rows[id].access.users.Listed? {
      WithoutHas(s.rows[id].access.users.items, UserItems(user));
    }
    if s.rows[id].enabled {
      DeletionKeepsGrants(s.rows[id], user);
    }
  }

  /** Deleting a library, likewise, whether its number is written as such or in quotes. */
  lemma LibraryDeletion(s: State, library: Name, id: Name)
    requires Valid(s) && id in s.rows && LibrariesReadable(s)
    ensures var s', libraries := LibraryDeleted(s, library), s.rows[id].access.libraries;
            && id in s'.rows
            && (libraries.Listed? ==> s'.rows[id].access.libraries.Listed? && forall item ::
                  item in s'.rows[id].access.libraries.items <==> item in libraries.items && item.id != library)
            && (s'.rows[id].enabled <==> s.rows[id].enabled && Satisfied(s.rows[id].manifest, s'.rows[id].access))
            && (id in s'.loaded <==> id in s.loaded && s'.rows[id].enabled)
  {
    if s.rows[id].access.libraries.Listed? {
      WithoutHas(s.rows[id].access.libraries.items, LibraryItems(library));
      assert forall item: Item :: item in LibraryItems(library) <==> item.id == library by {
        forall item: Item ensures item in LibraryItems(library) <==> item.id == library {
          assert item == Item(item.id, true) || item == Item(item.id, false);
        }
      }
    }
    if s.rows[id].enabled {
      DeletionKeepsGrants(s.rows[id], library);
    }
  }

  /** The plugin has been given access to the user. */
  predicate HasUser(s: State, id: Name, user: Name) {
    id in s.rows && s.rows[id].access.users.Listed? && Item(user, true) in s.rows[id].access.users.items
  }

  /** A deleted user is off every list if and only if no list is malformed, or it was on none. */
  lemma UserIsGoneIff(s: State, user: Name)
    requires Valid(s)
    ensures (forall id :: !HasUser(UserDeleted(s, user), id, user)) <==> UsersReadable(s) || forall id :: !HasUser(s, id, user)
  {
    if UsersReadable(s) {
      forall id ensures !HasUser(UserDeleted(s, user), id, user) {
        if id in s.rows && s.rows[id].access.users.Listed? {
          WithoutHas(s.rows[id].access.users.items, UserItems(user));
        }
      }
    } else {
      assert UserDeleted(s, user).rows == s.rows;
      assert forall id :: HasUser(UserDeleted(s, user), id, user) == HasUser(s, id, user);
    }
  }
}
