/**
  The four tables of schema.sql, the statements the repository runs against them, and the
  constraints the engine enforces.

  A table is the sequence of its rows. `Effect` is what a statement would do, cascades included;
  `Allowed` is the local check of keys and references that lets it through.
 */
module Schema {
  import Paths

  /** Time stamps are opaque. */
  type Time = int

  datatype Machine = Machine(id: int, name: string, ip: string, sshPort: int, sshUser: string, keyPath: string,
                             createdAt: Time, updatedAt: Time)

  datatype Watcher = Watcher(id: int, machineName: string, name: string, sourcePath: string,
                             createdAt: Time, updatedAt: Time)

  /** `filePath` holds the parent directory only. */
  datatype File = File(id: int, watcherName: string, fileName: string, filePath: string,
                       detectedAt: Time, flushed: bool)

  datatype Redirection = Redirection(watcherName: string, targetPath: string, targetMachine: string,
                                     createdAt: Time, updatedAt: Time)

  datatype Tables = Tables(machines: seq<Machine>, watchers: seq<Watcher>, files: seq<File>,
                           redirections: seq<Redirection>)

  datatype FileKey = FileKey(watcherName: string, filePath: string, fileName: string)

  // ---------------------------------------------------------------- columns used as keys

  function MachineId(m: Machine): int { m.id }
  function MachineName(m: Machine): string { m.name }
  function WatcherId(w: Watcher): int { w.id }
  function WatcherName(w: Watcher): string { w.name }
  function FileId(f: File): int { f.id }
  function FileWatcher(f: File): string { f.watcherName }
  function KeyOf(f: File): FileKey { FileKey(f.watcherName, f.filePath, f.fileName) }
  function RedirectionWatcher(r: Redirection): string { r.watcherName }

  /** The path a row stands for, as listing reads it back. */
  function FullPath(f: File): string {
    Paths.Join(f.filePath, f.fileName)
  }

  function PathKey(watcherName: string, path: string): FileKey {
    FileKey(watcherName, Paths.Dir(path), Paths.Base(path))
  }

  /** The row was written for a clean path: listing and removing agree on it. */
  predicate WellKeyed(f: File) {
    Paths.IsClean(FullPath(f)) && KeyOf(f) == PathKey(f.watcherName, FullPath(f))
  }

  // ---------------------------------------------------------------- rows selected by a column

  /** DELETE: the rows whose key is not among `dead`, in order. */
  function Reject<T(!new), K(==)>(s: seq<T>, key: T -> K, dead: set<K>): (r: seq<T>)
    ensures forall x :: x in r <==> x in s && key(x) !in dead
  {
    if s == [] then []
    else
      var rest := Reject(s[1..], key, dead);
      if key(s[0]) in dead then rest else [s[0]] + rest
  }

  /** SELECT: the rows whose key is among `wanted`, in order. */
  function Select<T(!new), K(==)>(s: seq<T>, key: T -> K, wanted: set<K>): (r: seq<T>)
    ensures forall x :: x in r <==> x in s && key(x) in wanted
  {
    if s == [] then []
    else
      var rest := Select(s[1..], key, wanted);
      if key(s[0]) in wanted then [s[0]] + rest else rest
  }

  ghost predicate Distinct<T, K>(s: seq<T>, key: T -> K) {
    forall i, j :: 0 <= i < j < |s| ==> key(s[i]) != key(s[j])
  }

  predicate Has<T(==,!new), K(==)>(s: seq<T>, key: T -> K, k: K) {
    exists x :: x in s && key(x) == k
  }

  /** Deleting rows cannot break the uniqueness of any column. */
  lemma {:induction false} RejectDistinct<T(!new), K, L>(s: seq<T>, key: T -> K, dead: set<K>, other: T -> L)
    requires Distinct(s, other)
    ensures Distinct(Reject(s, key, dead), other)
  {
    if s != [] {
      RejectDistinct(s[1..], key, dead, other);
      var rest := Reject(s[1..], key, dead);
      forall j | 0 <= j < |rest| ensures other(rest[j]) != other(s[0]) {
        assert rest[j] in s[1..];
        var k :| 0 <= k < |s[1..]| && s[1..][k] == rest[j];
        assert s[k + 1] == rest[j];
      }
    }
  }

  lemma {:induction false} RejectConcat<T(!new), K>(a: seq<T>, b: seq<T>, key: T -> K, dead: set<K>)
    ensures Reject(a + b, key, dead) == Reject(a, key, dead) + Reject(b, key, dead)
  {
    if a == [] {
      assert a + b == b;
    } else {
      assert (a + b)[1..] == a[1..] + b;
      RejectConcat(a[1..], b, key, dead);
    }
  }

  lemma {:induction false} SelectConcat<T(!new), K>(a: seq<T>, b: seq<T>, key: T -> K, wanted: set<K>)
    ensures Select(a + b, key, wanted) == Select(a, key, wanted) + Select(b, key, wanted)
  {
    if a == [] {
      assert a + b == b;
    } else {
      assert (a + b)[1..] == a[1..] + b;
      SelectConcat(a[1..], b, key, wanted);
    }
  }

  /** A unique column selects at most one row. */
  lemma {:induction false} SelectUnique<T(!new), K>(s: seq<T>, key: T -> K, i: nat)
    requires Distinct(s, key) && i < |s|
    ensures Select(s, key, {key(s[i])}) == [s[i]]
  {
    if i > 0 {
      SelectUnique(s[1..], key, i - 1);
    } else {
      SelectNone(s[1..], key, key(s[0]));
    }
  }

  lemma {:induction false} SelectNone<T(!new), K>(s: seq<T>, key: T -> K, k: K)
    requires forall i :: 0 <= i < |s| ==> key(s[i]) != k
    ensures Select(s, key, {k}) == []
  {
    if s != [] {
      SelectNone(s[1..], key, k);
    }
  }

  // ---------------------------------------------------------------- constraints

  /** Keys are unique and every reference has its parent row. */
  ghost predicate Consistent(t: Tables) {
    && Distinct(t.machines, MachineId) && Distinct(t.machines, MachineName)
    && Distinct(t.watchers, WatcherId) && Distinct(t.watchers, WatcherName)
    && Distinct(t.files, FileId) && Distinct(t.redirections, RedirectionWatcher)
    && (forall w :: w in t.watchers ==> Has(t.machines, MachineName, w.machineName))
    && (forall f :: f in t.files ==> Has(t.watchers, WatcherName, f.watcherName))
    && (forall r :: r in t.redirections ==>
          Has(t.watchers, WatcherName, r.watcherName) && Has(t.machines, MachineName, r.targetMachine))
  }

  /** INTEGER PRIMARY KEY without AUTOINCREMENT: the next id is one above the largest present. */
  function MaxId<T>(s: seq<T>, id: T -> int): (m: int)
    ensures m >= 0 && forall i :: 0 <= i < |s| ==> id(s[i]) <= m
  {
    if s == [] then 0
    else
      var m := MaxId(s[..|s| - 1], id);
      var last := id(s[|s| - 1]);
      if last > m then last else m
  }

  // ---------------------------------------------------------------- statements

  /** One assignment of an UPDATE's SET list. */
  datatype MachineSet = SetIp(ip: string) | SetPort(port: int) | SetUser(user: string) | SetKeyPath(keyPath: string)
    | SetMachineUpdated(at: Time)
  datatype WatcherSet = SetName(name: string) | SetSource(path: string) | SetWatcherUpdated(at: Time)
  datatype RedirectionSet = SetTarget(path: string) | SetRedirectionUpdated(at: Time)

  /** Values for one row of a multi-row INSERT into watched_files. */
  datatype NewFile = NewFile(watcherName: string, filePath: string, fileName: string, flushed: bool, detectedAt: Time) {
    function Row(id: int): File {
      File(id, watcherName, fileName, filePath, detectedAt, flushed)
    }
  }

  datatype Statement =
    | InsertMachine(name: string, ip: string, sshPort: int, sshUser: string, keyPath: string, now: Time)
    | UpdateMachine(machineSets: seq<MachineSet>, name: string)
    | DeleteMachine(name: string)
    | InsertWatcher(machineName: string, name: string, sourcePath: string, now: Time)
    | UpdateWatcher(watcherSets: seq<WatcherSet>, id: int)
    | DeleteWatcher(name: string)
    | InsertRedirection(watcherName: string, targetPath: string, targetMachine: string, now: Time)
    | UpdateRedirection(redirectionSets: seq<RedirectionSet>, watcherName: string)
    | DeleteRedirection(watcherName: string)
    | InsertFiles(rows: seq<NewFile>)
    | DeleteFiles(keys: set<FileKey>)
    | MarkFiles(ids: set<int>)

  function SetMachine(m: Machine, assignment: MachineSet): Machine {
    match assignment
    case SetIp(v) => m.(ip := v)
    case SetPort(v) => m.(sshPort := v)
    case SetUser(v) => m.(sshUser := v)
    case SetKeyPath(v) => m.(keyPath := v)
    case SetMachineUpdated(v) => m.(updatedAt := v)
  }

  function SetWatcher(w: Watcher, assignment: WatcherSet): Watcher {
    match assignment
    case SetName(v) => w.(name := v)
    case SetSource(v) => w.(sourcePath := v)
    case SetWatcherUpdated(v) => w.(updatedAt := v)
  }

  function SetRedirection(r: Redirection, assignment: RedirectionSet): Redirection {
    match assignment
    case SetTarget(v) => r.(targetPath := v)
    case SetRedirectionUpdated(v) => r.(updatedAt := v)
  }

  /** Assignments apply left to right, so the rightmost one to a column wins. */
  function AssignMachine(m: Machine, sets: seq<MachineSet>): (r: Machine)
    ensures r.id == m.id && r.name == m.name && r.createdAt == m.createdAt
  {
    if sets == [] then m else SetMachine(AssignMachine(m, sets[..|sets| - 1]), sets[|sets| - 1])
  }

  function AssignWatcher(w: Watcher, sets: seq<WatcherSet>): (r: Watcher)
    ensures r.id == w.id && r.machineName == w.machineName && r.createdAt == w.createdAt
  {
    if sets == [] then w else SetWatcher(AssignWatcher(w, sets[..|sets| - 1]), sets[|sets| - 1])
  }

  function AssignRedirection(r: Redirection, sets: seq<RedirectionSet>): (r': Redirection)
    ensures r'.watcherName == r.watcherName && r'.targetMachine == r.targetMachine && r'.createdAt == r.createdAt
  {
    if sets == [] then r else SetRedirection(AssignRedirection(r, sets[..|sets| - 1]), sets[|sets| - 1])
  }

  /** The rows a multi-row INSERT appends: consecutive ids from `first` on. */
  function NumberRows(rows: seq<NewFile>, first: int): (r: seq<File>)
    ensures |r| == |rows|
    ensures forall i :: 0 <= i < |r| ==> r[i] == rows[i].Row(first + i)
  {
    seq(|rows|, i requires 0 <= i < |rows| => rows[i].Row(first + i))
  }

  function Mark(files: seq<File>, ids: set<int>): (r: seq<File>)
    ensures |r| == |files|
    ensures forall i :: 0 <= i < |r| ==> r[i] == if files[i].id in ids then files[i].(flushed := true) else files[i]
  {
    seq(|files|, i requires 0 <= i < |files| =>
      if files[i].id in ids then files[i].(flushed := true) else files[i])
  }

  /** The names of the watchers that live on a machine. */
  function WatchersOn(t: Tables, machine: string): set<string> {
    set w | w in t.watchers && w.machineName == machine :: w.name
  }

  /** What a statement does when nothing stops it: ON DELETE CASCADE included. */
  function Effect(t: Tables, s: Statement): Tables {
    match s
    case InsertMachine(name, ip, port, user, key, now) =>
      t.(machines := t.machines + [Machine(MaxId(t.machines, MachineId) + 1, name, ip, port, user, key, now, now)])
    case UpdateMachine(sets, name) =>
      t.(machines := seq(|t.machines|, i requires 0 <= i < |t.machines| =>
        if t.machines[i].name == name then AssignMachine(t.machines[i], sets) else t.machines[i]))
    case DeleteMachine(name) =>
      var gone := if Has(t.machines, MachineName, name) then WatchersOn(t, name) else {};
      Tables(Reject(t.machines, MachineName, {name}), Reject(t.watchers, WatcherName, gone),
             Reject(t.files, FileWatcher, gone), Reject(t.redirections, RedirectionWatcher, gone))
    case InsertWatcher(machine, name, source, now) =>
      t.(watchers := t.watchers + [Watcher(MaxId(t.watchers, WatcherId) + 1, machine, name, source, now, now)])
    case UpdateWatcher(sets, id) =>
      t.(watchers := seq(|t.watchers|, i requires 0 <= i < |t.watchers| =>
        if t.watchers[i].id == id then AssignWatcher(t.watchers[i], sets) else t.watchers[i]))
    case DeleteWatcher(name) =>
      var gone := if Has(t.watchers, WatcherName, name) then {name} else {};
      t.(watchers := Reject(t.watchers, WatcherName, gone), files := Reject(t.files, FileWatcher, gone),
         redirections := Reject(t.redirections, RedirectionWatcher, gone))
    case InsertRedirection(watcher, path, machine, now) =>
      t.(redirections := t.redirections + [Redirection(watcher, path, machine, now, now)])
    case UpdateRedirection(sets, watcher) =>
      t.(redirections := seq(|t.redirections|, i requires 0 <= i < |t.redirections| =>
        if t.redirections[i].watcherName == watcher then AssignRedirection(t.redirections[i], sets)
        else t.redirections[i]))
    case DeleteRedirection(watcher) =>
      t.(redirections := Reject(t.redirections, RedirectionWatcher, {watcher}))
    case InsertFiles(rows) =>
      t.(files := t.files + NumberRows(rows, MaxId(t.files, FileId) + 1))
    case DeleteFiles(keys) =>
      t.(files := Reject(t.files, KeyOf, keys))
    case MarkFiles(ids) =>
      t.(files := Mark(t.files, ids))
  }

  /** Some row still refers to this watcher name. */
  predicate Referenced(t: Tables, watcher: string) {
    Has(t.files, FileWatcher, watcher) || Has(t.redirections, RedirectionWatcher, watcher)
  }

  /** The key and reference checks of one statement; NO ACTION is checked after the cascades. */
  predicate Allowed(t: Tables, s: Statement) {
    match s
    case InsertMachine(name, _, _, _, _, _) => !Has(t.machines, MachineName, name)
    case DeleteMachine(name) =>
      Has(t.machines, MachineName, name) ==>
        forall r :: r in t.redirections && r.targetMachine == name ==> r.watcherName in WatchersOn(t, name)
    case InsertWatcher(machine, name, _, _) =>
      !Has(t.watchers, WatcherName, name) && Has(t.machines, MachineName, machine)
    case UpdateWatcher(sets, id) =>
      forall w :: w in t.watchers && w.id == id ==>
        var name := AssignWatcher(w, sets).name;
        name == w.name || (!Has(t.watchers, WatcherName, name) && !Referenced(t, w.name))
    case InsertRedirection(watcher, _, machine, _) =>
      && !Has(t.redirections, RedirectionWatcher, watcher)
      && Has(t.watchers, WatcherName, watcher) && Has(t.machines, MachineName, machine)
    case InsertFiles(rows) =>
      forall i :: 0 <= i < |rows| ==> Has(t.watchers, WatcherName, rows[i].watcherName)
    case _ => true
  }

  /** Runs one statement: its effect, or nothing at all. */
  function Exec(t: Tables, s: Statement): Tables {
    if Allowed(t, s) then Effect(t, s) else t
  }

  function ExecAll(t: Tables, ss: seq<Statement>): Tables
    decreases |ss|
  {
    if ss == [] then t else ExecAll(Exec(t, ss[0]), ss[1..])
  }
}
