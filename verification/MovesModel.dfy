/**
 Phase 2 of the scan: files that went missing are matched with files that appeared, and a
 matched file takes over the identity of the missing one.
 */
module MovesModel {
  import opened Options

  datatype Id = Id(text: string)

  datatype Pid = Pid(text: string)

  const NO_PID := Pid("")

  /** contents stands for all the fields that the hash of a media file covers. */
  datatype Track = Track(
    id: Id, pid: Pid, lib: int, path: string, baseName: string, album: Id, contents: Id, missing: bool,
    createdAt: int, birthTime: int)
  {
    predicate Equals(other: Track) {
      contents == other.contents
    }

    predicate Equivalent(other: Track) {
      baseName == other.baseName
    }
  }

  type Table = map<Id, Track>

  ghost predicate TableValid(t: Table) {
    forall id :: id in t ==> t[id].id == id
  }

  /** No two rows of a library have the same path. */
  ghost predicate DistinctPaths(t: Table) {
    forall a, b :: a in t && b in t && t[a].lib == t[b].lib && t[a].path == t[b].path ==> a == b
  }

  datatype Group = Group(pid: Pid, missing: seq<Track>, matched: seq<Track>)

  // ----- The cursor, cut into groups -----

  /** Rows with the same pid follow one another, as they do in a cursor ordered by pid. */
  ghost predicate Clustered(cursor: seq<Track>) {
    forall i, j, k :: 0 <= i < j < k < |cursor| && cursor[i].pid == cursor[k].pid ==> cursor[j].pid == cursor[i].pid
  }

  function Having(cursor: seq<Track>, pid: Pid, missing: bool): seq<Track> {
    if cursor == [] then []
    else
      var last := cursor[|cursor| - 1];
      Having(cursor[..|cursor| - 1], pid, missing) + if last.pid == pid && last.missing == missing then [last] else []
  }

  function GroupOf(cursor: seq<Track>, pid: Pid): Group {
    Group(pid, Having(cursor, pid, true), Having(cursor, pid, false))
  }

  function Pids(groups: seq<Group>): seq<Pid> {
    seq(|groups|, i requires 0 <= i < |groups| => groups[i].pid)
  }

  /** All rows with the one pid stand before all rows with the other. */
  predicate StandsBefore(cursor: seq<Track>, p: Pid, q: Pid) {
    forall a, b :: 0 <= a < |cursor| && 0 <= b < |cursor| && cursor[a].pid == p && cursor[b].pid == q ==> a < b
  }

  /** The pids come in the order of the cursor. */
  predicate InTurn(cursor: seq<Track>, pids: seq<Pid>) {
    forall i, j :: 0 <= i < j < |pids| ==> StandsBefore(cursor, pids[i], pids[j])
  }

  /** The groups of a cursor: one for each pid that has a missing row, complete and in order. */
  ghost predicate GroupsOf(cursor: seq<Track>, groups: seq<Group>) {
    && (forall g :: g in groups ==> g.pid.text != "" && g.missing != [] && g == GroupOf(cursor, g.pid))
    && (forall i, j :: 0 <= i < j < |groups| ==> groups[i].pid != groups[j].pid)
    && InTurn(cursor, Pids(groups))
    && (forall i :: 0 <= i < |cursor| && cursor[i].pid.text != "" && cursor[i].missing ==>
          exists g :: g in groups && g.pid == cursor[i].pid)
  }

  // ----- Matching one missing track -----

  /** The first unused match with equal contents. */
  function ExactMatch(ms: Track, matched: seq<Track>, used: set<Id>): Option<Track> {
    if matched == [] then None
    else if matched[0].id !in used && ms.Equals(matched[0]) then Some(matched[0])
    else ExactMatch(ms, matched[1..], used)
  }

  /** The last unused match with the same base name. */
  function EquivalentMatch(ms: Track, matched: seq<Track>, used: set<Id>): Option<Track> {
    if matched == [] then None
    else
      var last := matched[|matched| - 1];
      if last.id !in used && ms.Equivalent(last) then Some(last)
      else EquivalentMatch(ms, matched[..|matched| - 1], used)
  }

  /** An exact match before a lone pair, and that before an equivalent match. */
  function Choice(ms: Track, g: Group, used: set<Id>): Option<Track> {
    var exact := ExactMatch(ms, g.matched, used);
    if exact.Some? then exact
    else if |g.missing| == 1 && |g.matched| == 1 && g.matched[0].id !in used then Some(g.matched[0])
    else EquivalentMatch(ms, g.matched, used)
  }

  // ----- Moving -----

  /** put: an existing row keeps its created_at and birth_time. */
  function Put(t: Table, m: Track): Table {
    t[m.id := if m.id in t then m.(createdAt := t[m.id].createdAt, birthTime := t[m.id].birthTime) else m]
  }

  function Moved(t: Table, target: Track, missing: Track): Table {
    Put(t, target.(id := missing.id, createdAt := missing.createdAt)) - {target.id}
  }

  /** reassigned maps an album to the one whose annotations it has taken over. */
  datatype Progress = Progress(table: Table, used: set<Id>, pairs: seq<(Track, Track)>, reassigned: map<Id, Id>)

  function Reassign(reassigned: map<Id, Id>, target: Track, missing: Track): map<Id, Id> {
    if target.album == missing.album || target.album in reassigned then reassigned
    else reassigned[target.album := missing.album]
  }

  /** The turn of one missing track. */
  function Turn(g: Group, p: Progress, ms: Track): Progress {
    var choice := Choice(ms, g, p.used);
    if choice.None? then p
    else Progress(
      Moved(p.table, choice.value, ms), p.used + {choice.value.id}, p.pairs + [(ms, choice.value)],
      Reassign(p.reassigned, choice.value, ms))
  }

  /** processMissingTracks, as far as the first n missing tracks. */
  function After(g: Group, table: Table, reassigned: map<Id, Id>, n: nat): (p: Progress)
    requires n <= |g.missing|
  {
    if n == 0 then Progress(table, {}, [], reassigned)
    else Turn(g, After(g, table, reassigned, n - 1), g.missing[n - 1])
  }

  /** The group's tracks are rows of the table, each once. */
  ghost predicate Drawn(g: Group, t: Table) {
    && (forall i :: 0 <= i < |g.missing| ==> g.missing[i].missing && g.missing[i].id in t && t[g.missing[i].id] == g.missing[i])
    && (forall i :: 0 <= i < |g.matched| ==> !g.matched[i].missing && g.matched[i].id in t && t[g.matched[i].id] == g.matched[i])
    && (forall i, j :: 0 <= i < j < |g.missing| ==> g.missing[i].id != g.missing[j].id)
    && (forall i, j :: 0 <= i < j < |g.matched| ==> g.matched[i].id != g.matched[j].id)
  }
}
