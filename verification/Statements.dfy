/**
  What each statement of an operator does, told in rows and columns.
 */
module Statements {
  import opened Schema

  /** A row appended to a table gets an id that no row has: one above the largest, or 1. */
  ghost predicate NextId<T>(s: seq<T>, id: T -> int, n: int) {
    && (forall x :: x in s ==> id(x) < n)
    && (n == 1 || exists x :: x in s && id(x) == n - 1)
  }

  lemma MaxIdIsNext<T>(s: seq<T>, id: T -> int)
    ensures NextId(s, id, MaxId(s, id) + 1)
  {
    forall x | x in s ensures id(x) < MaxId(s, id) + 1 {
      var i :| 0 <= i < |s| && s[i] == x;
      assert id(s[i]) <= MaxId(s, id);
    }
    MaxIdAttained(s, id);
  }

  lemma {:induction false} MaxIdAttained<T>(s: seq<T>, id: T -> int)
    ensures MaxId(s, id) == 0 || exists x :: x in s && id(x) == MaxId(s, id)
  {
    if s != [] {
      MaxIdAttained(s[..|s| - 1], id);
      assert s[|s| - 1] in s;
    }
  }

  // ---------------------------------------------------------------- inserts

  /** Registering a machine: refused when the name is taken, one new row with the given columns otherwise. */
  lemma InsertMachineRows(t: Tables, name: string, ip: string, port: int, user: string, key: string, now: Time)
    ensures var e := Exec(t, InsertMachine(name, ip, port, user, key, now));
            if exists m :: m in t.machines && m.name == name then e == t
            else
              && e.watchers == t.watchers && e.files == t.files && e.redirections == t.redirections
              && |e.machines| == |t.machines| + 1 && e.machines[..|t.machines|] == t.machines
              && var m := e.machines[|t.machines|];
                 && NextId(t.machines, MachineId, m.id) && m.name == name && m.ip == ip && m.sshPort == port
                 && m.sshUser == user && m.keyPath == key && m.createdAt == now && m.updatedAt == now
  {
    MaxIdIsNext(t.machines, MachineId);
  }

  /** Creating a watcher: refused when the name is taken or the machine is missing. */
  lemma InsertWatcherRows(t: Tables, machine: string, name: string, source: string, now: Time)
    ensures var e := Exec(t, InsertWatcher(machine, name, source, now));
            if (exists w :: w in t.watchers && w.name == name) || !(exists m :: m in t.machines && m.name == machine)
            then e == t
            else
              && e.machines == t.machines && e.files == t.files && e.redirections == t.redirections
              && |e.watchers| == |t.watchers| + 1 && e.watchers[..|t.watchers|] == t.watchers
              && var w := e.watchers[|t.watchers|];
                 && NextId(t.watchers, WatcherId, w.id) && w.machineName == machine && w.name == name
                 && w.sourcePath == source && w.createdAt == now && w.updatedAt == now
  {
    MaxIdIsNext(t.watchers, WatcherId);
  }

  /** Adding a redirection: one a watcher, and both the watcher and the target machine must be there. */
  lemma InsertRedirectionRows(t: Tables, watcher: string, path: string, machine: string, now: Time)
    ensures var e := Exec(t, InsertRedirection(watcher, path, machine, now));
            if (exists r :: r in t.redirections && r.watcherName == watcher)
               || !(exists w :: w in t.watchers && w.name == watcher)
               || !(exists m :: m in t.machines && m.name == machine)
            then e == t
            else
              && e.machines == t.machines && e.watchers == t.watchers && e.files == t.files
              && |e.redirections| == |t.redirections| + 1 && e.redirections[..|t.redirections|] == t.redirections
              && var r := e.redirections[|t.redirections|];
                 && r.watcherName == watcher && r.targetPath == path && r.targetMachine == machine
                 && r.createdAt == now && r.updatedAt == now
  {
  }

  // ---------------------------------------------------------------- deletes

  /** Deleting a watcher removes precisely it, its files and its redirection; it is never refused. */
  lemma DeleteWatcherRows(t: Tables, name: string)
    requires Consistent(t)
    ensures var e := Exec(t, DeleteWatcher(name));
            && e.machines == t.machines
            && (forall w :: w in e.watchers <==> w in t.watchers && w.name != name)
            && (forall f :: f in e.files <==> f in t.files && f.watcherName != name)
            && (forall r :: r in e.redirections <==> r in t.redirections && r.watcherName != name)
  {
  }

  lemma DeleteRedirectionRows(t: Tables, watcher: string)
    ensures var e := Exec(t, DeleteRedirection(watcher));
            && e.machines == t.machines && e.watchers == t.watchers && e.files == t.files
            && forall r :: r in e.redirections <==> r in t.redirections && r.watcherName != watcher
  {
  }

  /** Deleting files by key keeps every other row. */
  lemma DeleteFilesRows(t: Tables, keys: set<FileKey>)
    ensures var e := Exec(t, DeleteFiles(keys));
            && e.machines == t.machines && e.watchers == t.watchers && e.redirections == t.redirections
            && forall f :: f in e.files <==> f in t.files && FileKey(f.watcherName, f.filePath, f.fileName) !in keys
  {
  }

  // ---------------------------------------------------------------- updates

  /** Moving a redirection: the target path and the time stamp of exactly one row. */
  lemma UpdateRedirectionRows(t: Tables, watcher: string, path: string, now: Time, i: nat)
    requires i < |t.redirections|
    ensures var e := Exec(t, UpdateRedirection([SetTarget(path)] + [SetRedirectionUpdated(now)], watcher));
            && e.machines == t.machines && e.watchers == t.watchers && e.files == t.files
            && |e.redirections| == |t.redirections|
            && var r, r' := t.redirections[i], e.redirections[i];
               if r.watcherName != watcher then r' == r
               else
                 && r'.targetPath == path && r'.updatedAt == now && r'.watcherName == r.watcherName
                 && r'.targetMachine == r.targetMachine && r'.createdAt == r.createdAt
  {
    var one, r := [SetTarget(path)], t.redirections[i];
    assert one[..0] == [] && (one + [SetRedirectionUpdated(now)])[..1] == one;
    assert AssignRedirection(r, one) == SetRedirection(r, SetTarget(path));
  }

  /** Marking files: the flag of exactly the rows with these ids. */
  lemma MarkFilesRows(t: Tables, ids: set<int>, i: nat)
    requires i < |t.files|
    ensures var e := Exec(t, MarkFiles(ids));
            && e.machines == t.machines && e.watchers == t.watchers && e.redirections == t.redirections
            && |e.files| == |t.files|
            && var f, f' := t.files[i], e.files[i];
               && f'.id == f.id && f'.watcherName == f.watcherName && f'.filePath == f.filePath
               && f'.fileName == f.fileName && f'.detectedAt == f.detectedAt
               && f'.flushed == (f.flushed || f.id in ids)
  {
  }

  /** Inserting files: refused as a whole when some watcher is missing, one row a value tuple otherwise. */
  lemma InsertFilesRows(t: Tables, rows: seq<NewFile>, i: nat)
    requires i < |rows|
    ensures var e := Exec(t, InsertFiles(rows));
            if exists k :: 0 <= k < |rows| && forall w :: w in t.watchers ==> w.name != rows[k].watcherName
            then e == t
            else
              && e.machines == t.machines && e.watchers == t.watchers && e.redirections == t.redirections
              && |e.files| == |t.files| + |rows| && e.files[..|t.files|] == t.files
              && var f, n := e.files[|t.files| + i], rows[i];
                 && NextId(t.files, FileId, f.id - i) && f.watcherName == n.watcherName && f.filePath == n.filePath
                 && f.fileName == n.fileName && f.flushed == n.flushed && f.detectedAt == n.detectedAt
  {
    MaxIdIsNext(t.files, FileId);
  }
}
