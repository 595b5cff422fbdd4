/**
  The repository layer over the tables: it builds placeholder lists and flat argument lists, and the
  driver binds the arguments to the placeholders from left to right.
 */
module Database {
  import opened GoSet
  import opened Schema
  import Paths
  import Integrity
  import PendingView

  datatype Option<T> = None | Some(value: T) {
    function GetOr(default: T): T {
      if Some? then value else default
    }
  }

  datatype Result<T> = Ok(value: T) | Err(error: string)

  /** A bound SQL argument. */
  datatype Value = Text(text: string) | Integer(n: int) | Stamp(at: Time)

  /** A row of watched_files as the repository hands it out: the full path joined back together. */
  datatype WatchedFile = WatchedFile(id: int, watcherName: string, filePath: string, flushed: bool, detectedAt: Time)

  function AsWatched(f: File): WatchedFile {
    WatchedFile(f.id, f.watcherName, FullPath(f), f.flushed, f.detectedAt)
  }

  function AsWatchedAll(rows: seq<File>): seq<WatchedFile> {
    seq(|rows|, i requires 0 <= i < |rows| => AsWatched(rows[i]))
  }

  // ---------------------------------------------------------------- binding

  /** The driver's reading of an INSERT with `n` groups "(?,?,?,?,?)". */
  function BindRows(n: nat, args: seq<Value>): Result<seq<NewFile>> {
    if n == 0 then (if args == [] then Ok([]) else Err("too many arguments"))
    else if |args| < 5 then Err("not enough arguments")
    else match (args[0], args[1], args[2], args[3], args[4])
      case (Text(watcher), Text(dir), Text(name), Integer(flushed), Stamp(at)) =>
        var rest := BindRows(n - 1, args[5..]);
        if rest.Ok? then Ok([NewFile(watcher, dir, name, flushed == 1, at)] + rest.value) else rest
      case _ => Err("datatype mismatch")
  }

  /** The driver's reading of `n` conditions "(file_path=? AND file_name=?)". */
  function BindPairs(n: nat, watcher: string, args: seq<Value>): Result<seq<FileKey>> {
    if n == 0 then (if args == [] then Ok([]) else Err("too many arguments"))
    else if |args| < 2 then Err("not enough arguments")
    else match (args[0], args[1])
      case (Text(dir), Text(name)) =>
        var rest := BindPairs(n - 1, watcher, args[2..]);
        if rest.Ok? then Ok([FileKey(watcher, dir, name)] + rest.value) else rest
      case _ => Err("datatype mismatch")
  }

  /** The driver's reading of "id IN (?,...,?)" with `n` placeholders. */
  function BindIds(n: nat, args: seq<Value>): Result<seq<int>> {
    if n != |args| then Err("wrong number of arguments")
    else if n == 0 then Ok([])
    else
      var front, last := BindIds(n - 1, args[..n - 1]), args[n - 1];
      if front.Ok? && last.Integer? then Ok(front.value + [last.n]) else Err("datatype mismatch")
  }

  function Flag(b: bool): Value {
    Integer(if b then 1 else 0)
  }

  function RowArgs(r: NewFile): seq<Value> {
    [Text(r.watcherName), Text(r.filePath), Text(r.fileName), Flag(r.flushed), Stamp(r.detectedAt)]
  }

  lemma {:induction false} BindRowsAppend(n: nat, args: seq<Value>, r: NewFile)
    requires BindRows(n, args).Ok?
    ensures BindRows(n + 1, args + RowArgs(r)) == Ok(BindRows(n, args).value + [r])
  {
    if n == 0 {
      assert args + RowArgs(r) == RowArgs(r) && RowArgs(r)[5..] == [] && [r] + [] == [] + [r];
    } else {
      assert (args + RowArgs(r))[5..] == args[5..] + RowArgs(r);
      BindRowsAppend(n - 1, args[5..], r);
      var rest := BindRows(n - 1, args[5..]).value;
      assert [BindRows(n, args).value[0]] + (rest + [r]) == BindRows(n, args).value + [r];
    }
  }

  lemma {:induction false} BindPairsAppend(n: nat, watcher: string, args: seq<Value>, dir: string, name: string)
    requires BindPairs(n, watcher, args).Ok?
    ensures BindPairs(n + 1, watcher, args + [Text(dir), Text(name)]) ==
            Ok(BindPairs(n, watcher, args).value + [FileKey(watcher, dir, name)])
  {
    var more := [Text(dir), Text(name)];
    if n == 0 {
      var key := FileKey(watcher, dir, name);
      assert args + more == more && more[2..] == [] && [key] + [] == [] + [key];
    } else {
      assert (args + more)[2..] == args[2..] + more;
      BindPairsAppend(n - 1, watcher, args[2..], dir, name);
      var rest, key := BindPairs(n - 1, watcher, args[2..]).value, FileKey(watcher, dir, name);
      assert [BindPairs(n, watcher, args).value[0]] + (rest + [key]) == BindPairs(n, watcher, args).value + [key];
    }
  }

  /** Columns an UPDATE of machines may set. */
  datatype MachineColumn = Ip | SshPort | SshPrivateKeyPath | SshUser | MachineUpdatedAt
  datatype WatcherColumn = Name | SourcePath | WatcherUpdatedAt

  function BindMachineSet(c: MachineColumn, v: Value): Result<MachineSet> {
    match (c, v)
    case (Ip, Text(v)) => Ok(SetIp(v))
    case (SshPort, Integer(v)) => Ok(SetPort(v))
    case (SshPrivateKeyPath, Text(v)) => Ok(SetKeyPath(v))
    case (SshUser, Text(v)) => Ok(SetUser(v))
    case (MachineUpdatedAt, Stamp(v)) => Ok(SetMachineUpdated(v))
    case _ => Err("datatype mismatch")
  }

  function BindWatcherSet(c: WatcherColumn, v: Value): Result<WatcherSet> {
    match (c, v)
    case (Name, Text(v)) => Ok(SetName(v))
    case (SourcePath, Text(v)) => Ok(SetSource(v))
    case (WatcherUpdatedAt, Stamp(v)) => Ok(SetWatcherUpdated(v))
    case _ => Err("datatype mismatch")
  }

  /** "SET c1=?, c2=?, ... WHERE key=?": the i-th argument goes to the i-th column. */
  function BindMachineSets(cols: seq<MachineColumn>, args: seq<Value>): Result<seq<MachineSet>> {
    if |cols| != |args| then Err("wrong number of arguments")
    else if cols == [] then Ok([])
    else
      var n := |cols| - 1;
      var front, last := BindMachineSets(cols[..n], args[..n]), BindMachineSet(cols[n], args[n]);
      if front.Ok? && last.Ok? then Ok(front.value + [last.value]) else Err("datatype mismatch")
  }

  function BindWatcherSets(cols: seq<WatcherColumn>, args: seq<Value>): Result<seq<WatcherSet>> {
    if |cols| != |args| then Err("wrong number of arguments")
    else if cols == [] then Ok([])
    else
      var n := |cols| - 1;
      var front, last := BindWatcherSets(cols[..n], args[..n]), BindWatcherSet(cols[n], args[n]);
      if front.Ok? && last.Ok? then Ok(front.value + [last.value]) else Err("datatype mismatch")
  }

  /** The SET list built so far turns `m` into `r`. */
  ghost predicate SetsMachine(cols: seq<MachineColumn>, args: seq<Value>, m: Machine, r: Machine) {
    BindMachineSets(cols, args).Ok? && AssignMachine(m, BindMachineSets(cols, args).value) == r
  }

  ghost predicate SetsWatcher(cols: seq<WatcherColumn>, args: seq<Value>, w: Watcher, r: Watcher) {
    BindWatcherSets(cols, args).Ok? && AssignWatcher(w, BindWatcherSets(cols, args).value) == r
  }

  // ---------------------------------------------------------------- rows a sync writes

  function NewRow(watcher: string, path: string, flushed: bool, now: Time): NewFile {
    NewFile(watcher, Paths.Dir(path), Paths.Base(path), flushed, now)
  }

  /** The rows one bulk add inserts for `paths`, in that order. */
  function NewRows(watcher: string, paths: seq<string>, flushed: bool, now: Time): (r: seq<NewFile>)
    ensures |r| == |paths| && forall i :: 0 <= i < |r| ==> r[i] == NewRow(watcher, paths[i], flushed, now)
  {
    seq(|paths|, i requires 0 <= i < |paths| => NewRow(watcher, paths[i], flushed, now))
  }

  /** The tail a bulk add appends to `files`. */
  function FreshRows(files: seq<File>, watcher: string, paths: seq<string>, flushed: bool, now: Time): (r: seq<File>)
    ensures |r| == |paths|
    ensures forall i :: 0 <= i < |r| ==>
      r[i] == NewRow(watcher, paths[i], flushed, now).Row(MaxId(files, FileId) + 1 + i)
  {
    NumberRows(NewRows(watcher, paths, flushed, now), MaxId(files, FileId) + 1)
  }

  function PathKeys(watcher: string, paths: seq<string>): set<FileKey> {
    set p | p in paths :: PathKey(watcher, p)
  }

  /** The condition list and the flat argument list: the watcher, then two arguments per path. */
  method DeleteList(watcher: string, paths: seq<string>) returns (conditions: seq<string>, args: seq<Value>)
    ensures args != [] && args[0] == Text(watcher)
    ensures BindPairs(|conditions|, watcher, args[1..]).Ok?
    ensures Elements(BindPairs(|conditions|, watcher, args[1..]).value) == PathKeys(watcher, paths)
  {
    conditions, args := [], [Text(watcher)];
    ghost var keys: seq<FileKey> := [];
    for i := 0 to |paths|
      invariant |conditions| == |keys| == i
      invariant args != [] && args[0] == Text(watcher) && BindPairs(i, watcher, args[1..]) == Ok(keys)
      invariant forall j :: 0 <= j < i ==> keys[j] == PathKey(watcher, paths[j])
    {
      conditions := conditions + ["(file_path=? AND file_name=?)"];
      BindPairsAppend(i, watcher, args[1..], Paths.Dir(paths[i]), Paths.Base(paths[i]));
      var more := [Text(Paths.Dir(paths[i])), Text(Paths.Base(paths[i]))];
      assert (args + more)[1..] == args[1..] + more;
      args := args + more;
      keys := keys + [PathKey(watcher, paths[i])];
    }
    KeysOfPaths(watcher, paths, keys);
  }

  lemma KeysOfPaths(watcher: string, paths: seq<string>, keys: seq<FileKey>)
    requires |keys| == |paths| && forall j :: 0 <= j < |paths| ==> keys[j] == PathKey(watcher, paths[j])
    ensures Elements(keys) == PathKeys(watcher, paths)
  {
  }

  /** One placeholder and one argument per id. */
  method IdList(ids: seq<int>) returns (placeholders: seq<string>, args: seq<Value>)
    ensures BindIds(|placeholders|, args) == Ok(ids)
  {
    placeholders, args := seq(|ids|, _ => ""), seq(|ids|, _ => Integer(0));
    for i := 0 to |ids|
      invariant |placeholders| == |args| == |ids|
      invariant BindIds(i, args[..i]) == Ok(ids[..i])
    {
      placeholders, args := placeholders[i := "?"], args[i := Integer(ids[i])];
      assert args[..i + 1][..i] == args[..i] && ids[..i + 1] == ids[..i] + [ids[i]];
    }
    assert args[..|ids|] == args && ids[..|ids|] == ids;
  }

  /** A bulk add goes through exactly when the watcher exists. */
  lemma NewRowsAllowed(t: Tables, watcher: string, paths: seq<string>, flushed: bool, now: Time)
    requires paths != []
    ensures Allowed(t, InsertFiles(NewRows(watcher, paths, flushed, now))) <==> Has(t.watchers, WatcherName, watcher)
  {
    assert NewRows(watcher, paths, flushed, now)[0].watcherName == watcher;
  }

  lemma InsertOneMore(watcher: string, items: seq<string>, i: nat, flushed: bool, now: Time, args: seq<Value>)
    requires i < |items| && BindRows(i, args) == Ok(NewRows(watcher, items[..i], flushed, now))
    ensures BindRows(i + 1, args + RowArgs(NewRow(watcher, items[i], flushed, now)))
            == Ok(NewRows(watcher, items[..i + 1], flushed, now))
  {
    BindRowsAppend(i, args, NewRow(watcher, items[i], flushed, now));
    NewRowsSnoc(watcher, items, i, flushed, now);
  }

  lemma NewRowsSnoc(watcher: string, items: seq<string>, i: nat, flushed: bool, now: Time)
    requires i < |items|
    ensures NewRows(watcher, items[..i + 1], flushed, now)
            == NewRows(watcher, items[..i], flushed, now) + [NewRow(watcher, items[i], flushed, now)]
  {
  }

  lemma RowsInserted(t: Tables, watcher: string, paths: seq<string>, flushed: bool, now: Time)
    ensures Effect(t, InsertFiles(NewRows(watcher, paths, flushed, now)))
            == t.(files := t.files + FreshRows(t.files, watcher, paths, flushed, now))
  {
  }

  /** The VALUES groups and the flat argument list, five per path. */
  method InsertList(watcher: string, items: seq<string>, flushed: bool, now: Time)
    returns (placeholders: seq<string>, args: seq<Value>, entries: seq<(string, string)>)
    ensures BindRows(|placeholders|, args) == Ok(NewRows(watcher, items, flushed, now))
    ensures |entries| == |items| && forall j :: 0 <= j < |items| ==>
      entries[j] == (Paths.Base(items[j]), Paths.Dir(items[j]))
  {
    placeholders, args, entries := [], [], [];
    for i := 0 to |items|
      invariant |placeholders| == |entries| == i
      invariant BindRows(i, args) == Ok(NewRows(watcher, items[..i], flushed, now))
      invariant forall j :: 0 <= j < i ==> entries[j] == (Paths.Base(items[j]), Paths.Dir(items[j]))
    {
      var parentDir, name := Paths.Dir(items[i]), Paths.Base(items[i]);
      placeholders := placeholders + ["(?,?,?,?,?)"];
      InsertOneMore(watcher, items, i, flushed, now, args);
      args := args + [Text(watcher), Text(parentDir), Text(name), Flag(flushed), Stamp(now)];
      entries := entries + [(name, parentDir)];
    }
    assert items[..|items|] == items;
  }

  /** The records handed back, numbered from the first inserted id. */
  method InsertedRecords(watcher: string, ghost items: seq<string>, entries: seq<(string, string)>, firstId: int,
                         flushed: bool, now: Time)
    returns (watched: seq<WatchedFile>)
    requires |entries| == |items| && forall j :: 0 <= j < |items| ==>
      entries[j] == (Paths.Base(items[j]), Paths.Dir(items[j]))
    ensures watched == AsWatchedAll(NumberRows(NewRows(watcher, items, flushed, now), firstId))
  {
    watched := [];
    for i := 0 to |entries|
      invariant |watched| == i
      invariant forall j :: 0 <= j < i ==>
        watched[j] == AsWatched(NewRow(watcher, items[j], flushed, now).Row(firstId + j))
    {
      var (name, parentDir) := entries[i];
      RecordOf(watcher, items[i], flushed, now, firstId + i);
      watched := watched + [WatchedFile(firstId + i, watcher, Paths.Join(parentDir, name), flushed, now)];
    }
    RecordsOf(watcher, items, flushed, now, firstId, watched);
  }

  lemma RecordOf(watcher: string, path: string, flushed: bool, now: Time, id: int)
    ensures AsWatched(NewRow(watcher, path, flushed, now).Row(id))
            == WatchedFile(id, watcher, Paths.Join(Paths.Dir(path), Paths.Base(path)), flushed, now)
  {
  }

  lemma RecordsOf(watcher: string, items: seq<string>, flushed: bool, now: Time, firstId: int,
                  watched: seq<WatchedFile>)
    requires |watched| == |items|
    requires forall j :: 0 <= j < |items| ==>
      watched[j] == AsWatched(NewRow(watcher, items[j], flushed, now).Row(firstId + j))
    ensures watched == AsWatchedAll(NumberRows(NewRows(watcher, items, flushed, now), firstId))
  {
  }

  /** The new name is taken, or rows still refer to the old one. */
  ghost predicate RenameBlocked(t: Tables, w: Watcher, id: int, p: WatcherPatch) {
    && w.id == id && p.name.Some? && p.name.value != w.name
    && (Has(t.watchers, WatcherName, p.name.value) || Has(t.files, FileWatcher, w.name)
        || Has(t.redirections, RedirectionWatcher, w.name))
  }

  /** The database handle. `up` says whether the engine itself lets a statement through. */
  class DB {
    var t: Tables

    constructor (t: Tables)
      ensures this.t == t
    {
      this.t := t;
    }

    /** Runs one statement: its whole effect, or nothing and an error. */
    method Exec(s: Statement, up: bool) returns (ok: bool)
      modifies this
      ensures ok == (up && Allowed(old(t), s))
      ensures t == if ok then Effect(old(t), s) else old(t)
    {
      ok := up && Allowed(t, s);
      if ok {
        t := Effect(t, s);
      }
    }

    /** INSERT INTO watched_files ... VALUES g1,...,gn. Returns LastInsertId. */
    method ExecInsertFiles(groups: seq<string>, args: seq<Value>, up: bool) returns (lastId: Result<int>)
      modifies this
      ensures
        var bound := BindRows(|groups|, args);
        if up && bound.Ok? && Allowed(old(t), InsertFiles(bound.value))
        then t == Effect(old(t), InsertFiles(bound.value)) && lastId == Ok(MaxId(old(t).files, FileId) + |bound.value|)
        else t == old(t) && lastId.Err?
    {
      var bound := BindRows(|groups|, args);
      if bound.Err? {
        return Err(bound.error);
      }
      var top := MaxId(t.files, FileId);
      var ok := Exec(InsertFiles(bound.value), up);
      lastId := if ok then Ok(top + |bound.value|) else Err("constraint failed");
    }

    /** UPDATE watched_files SET flushed=1 WHERE id IN (p1,...,pn). */
    method ExecMarkFiles(placeholders: seq<string>, args: seq<Value>, up: bool) returns (ok: bool)
      modifies this
      ensures
        var bound := BindIds(|placeholders|, args);
        if up && bound.Ok? then ok && t == Effect(old(t), MarkFiles(Elements(bound.value))) else !ok && t == old(t)
    {
      var bound := BindIds(|placeholders|, args);
      if bound.Err? {
        return false;
      }
      ok := Exec(MarkFiles(Elements(bound.value)), up);
    }

    /** DELETE FROM watched_files WHERE watcher_name=? AND (c1 OR ... OR cn). */
    method ExecDeleteFiles(conditions: seq<string>, args: seq<Value>, up: bool) returns (ok: bool)
      modifies this
      ensures
        var bound := if args != [] && args[0].Text? then BindPairs(|conditions|, args[0].text, args[1..]) else Err("");
        if up && bound.Ok? then ok && t == Effect(old(t), DeleteFiles(Elements(bound.value)))
        else !ok && t == old(t)
    {
      if args == [] || !args[0].Text? {
        return false;
      }
      var bound := BindPairs(|conditions|, args[0].text, args[1..]);
      if bound.Err? {
        return false;
      }
      ok := Exec(DeleteFiles(Elements(bound.value)), up);
    }

    /**
      Inserts one row per path in one statement. `order` is the iteration order of the set.
      Each returned record carries the id of the row that stores that very path.
     */
    method BulkAddWatchedFiles(watcher: string, files: Set<string>, flushed: bool, now: Time, order: seq<string>,
                               up: bool)
      returns (r: Result<seq<WatchedFile>>)
      requires files.Valid() && Lists(order, files.items)
      modifies this
      ensures files.items == {} ==> t == old(t) && r == Ok([])
      ensures files.items != {} ==>
        if up && Has(old(t).watchers, WatcherName, watcher)
        then
          && t == old(t).(files := old(t).files + FreshRows(old(t).files, watcher, order, flushed, now))
          && r == Ok(AsWatchedAll(FreshRows(old(t).files, watcher, order, flushed, now)))
        else t == old(t) && r.Err?
      ensures r.Ok? ==>
        |r.value| == |order| && |t.files| == |old(t).files| + |order| && forall i :: 0 <= i < |order| ==>
          var f := t.files[|old(t).files| + i];
          && f.watcherName == watcher && f.filePath == Paths.Dir(order[i]) && f.fileName == Paths.Base(order[i])
          && f.flushed == flushed && f.detectedAt == now
          && r.value[i] == WatchedFile(f.id, watcher, Paths.Join(f.filePath, f.fileName), flushed, now)
    {
      var n := files.Size();
      ListLength(order, files.items);
      if n == 0 {
        return Ok([]);
      }
      var items := files.Items(order);
      r := InsertItems(watcher, items, flushed, now, up);
    }

    /** The one INSERT of a bulk add, and the records made from its last id. */
    method InsertItems(watcher: string, items: seq<string>, flushed: bool, now: Time, up: bool)
      returns (r: Result<seq<WatchedFile>>)
      requires items != []
      modifies this
      ensures
        if up && Has(old(t).watchers, WatcherName, watcher)
        then
          && t == old(t).(files := old(t).files + FreshRows(old(t).files, watcher, items, flushed, now))
          && r == Ok(AsWatchedAll(FreshRows(old(t).files, watcher, items, flushed, now)))
        else t == old(t) && r.Err?
    {
      var placeholders, args, entries := InsertList(watcher, items, flushed, now);
      NewRowsAllowed(t, watcher, items, flushed, now);
      RowsInserted(t, watcher, items, flushed, now);
      var lastId := ExecInsertFiles(placeholders, args, up);
      if lastId.Err? {
        return Err("bulk add watched files");
      }
      var firstId := lastId.value - |entries| + 1;
      var watched := InsertedRecords(watcher, items, entries, firstId, flushed, now);
      return Ok(watched);
    }

    /** Deletes, in one statement, every row of the watcher whose key is that of a listed path. */
    method BulkRemoveWatchedFiles(watcher: string, paths: seq<string>, up: bool) returns (ok: bool)
      modifies this
      ensures ok == (up || paths == [])
      ensures t == if ok then Effect(old(t), DeleteFiles(PathKeys(watcher, paths))) else old(t)
    {
      if paths == [] {
        assert PathKeys(watcher, paths) == {};
        RejectNothing(t.files, {});
        return true;
      }
      var conditions, args := DeleteList(watcher, paths);
      ok := ExecDeleteFiles(conditions, args, up);
    }

    /** All rows of a watcher, flushed or not, with their paths joined back together. */
    method ListWatchedFiles(watcher: string, up: bool) returns (r: Result<seq<WatchedFile>>)
      ensures r.Ok? == up
      ensures up ==>
        var rows := Select(t.files, FileWatcher, {watcher});
        |r.value| == |rows| && forall i :: 0 <= i < |rows| ==>
          var f := rows[i];
          && r.value[i] == AsWatched(f)
          && r.value[i] == WatchedFile(f.id, f.watcherName, Paths.Join(f.filePath, f.fileName), f.flushed, f.detectedAt)
    {
      if !up {
        return Err("list watched files");
      }
      var rows := Select(t.files, FileWatcher, {watcher});
      var result: seq<WatchedFile> := [];
      for i := 0 to |rows|
        invariant |result| == i && forall j :: 0 <= j < i ==> result[j] == AsWatched(rows[j])
      {
        var f := rows[i];
        result := result + [WatchedFile(f.id, f.watcherName, Paths.Join(f.filePath, f.fileName), f.flushed,
                                        f.detectedAt)];
      }
      return Ok(result);
    }

    method FlushWatchedFiles(ids: seq<int>, up: bool) returns (ok: bool)
      modifies this
      ensures ok == (up || ids == [])
      ensures t == if ok then Effect(old(t), MarkFiles(Elements(ids))) else old(t)
    {
      if ids == [] {
        assert Mark(t.files, {}) == t.files;
        return true;
      }
      var placeholders, args := IdList(ids);
      ok := ExecMarkFiles(placeholders, args, up);
    }

    method ListPendingFlushes(watcher: string, up: bool) returns (r: Result<seq<PendingView.PendingFlush>>)
      ensures r == if up then Ok(PendingView.PendingFor(t, watcher)) else Err("list pending flushes")
    {
      r := if up then Ok(PendingView.PendingFor(t, watcher)) else Err("list pending flushes");
    }

    method GetMachineByName(name: string) returns (r: Result<Machine>)
      ensures r.Ok? == Has(t.machines, MachineName, name)
      ensures r.Ok? ==> r.value in t.machines && r.value.name == name
      ensures r.Ok? ==> r.value == Select(t.machines, MachineName, {name})[0]
    {
      var rows := Select(t.machines, MachineName, {name});
      if rows == [] {
        return Err("scan machine");
      }
      assert rows[0] in rows;
      return Ok(rows[0]);
    }

    method GetWatcherByName(name: string) returns (r: Result<Watcher>)
      ensures r.Ok? == Has(t.watchers, WatcherName, name)
      ensures r.Ok? ==> r.value in t.watchers && r.value.name == name
      ensures r.Ok? ==> r.value == Select(t.watchers, WatcherName, {name})[0]
    {
      var rows := Select(t.watchers, WatcherName, {name});
      if rows == [] {
        return Err("scan watcher");
      }
      assert rows[0] in rows;
      return Ok(rows[0]);
    }

    method GetWatcherById(id: int) returns (r: Result<Watcher>)
      ensures r.Ok? == Has(t.watchers, WatcherId, id)
      ensures r.Ok? ==> r.value in t.watchers && r.value.id == id
      ensures r.Ok? ==> r.value == Select(t.watchers, WatcherId, {id})[0]
    {
      var rows := Select(t.watchers, WatcherId, {id});
      if rows == [] {
        return Err("scan watcher");
      }
      assert rows[0] in rows;
      return Ok(rows[0]);
    }

    /**
      Overwrites exactly the non-nil fields, and the time stamp, of exactly the named row. The key path
      is put in the SET list twice; the rightmost assignment wins and both carry the same value.
     */
    method UpdateMachine(name: string, p: MachinePatch, now: Time, up: bool) returns (r: Result<Machine>)
      modifies this
      ensures r.Ok? == ((p.Empty() || up) && Has(old(t).machines, MachineName, name))
      ensures r.Ok? ==> r.value in t.machines && r.value.name == name
      ensures
        if p.Empty() || !up then t == old(t)
        else
          && t == old(t).(machines := t.machines) && |t.machines| == |old(t).machines|
          && forall i :: 0 <= i < |t.machines| ==>
               var m, m' := old(t).machines[i], t.machines[i];
               if m.name != name then m' == m
               else
                 && m'.ip == (if p.ip.Some? then p.ip.value else m.ip)
                 && m'.sshPort == (if p.sshPort.Some? then p.sshPort.value else m.sshPort)
                 && m'.sshUser == (if p.sshUser.Some? then p.sshUser.value else m.sshUser)
                 && m'.keyPath == (if p.keyPath.Some? then p.keyPath.value else m.keyPath)
                 && m'.id == m.id && m'.name == m.name && m'.createdAt == m.createdAt && m'.updatedAt == now
    {
      if p.Empty() {
        r := GetMachineByName(name);
        return;
      }
      r := ExecMachineUpdate(name, p, now, up);
    }

    /** The UPDATE itself, for a patch that is not empty. */
    method ExecMachineUpdate(name: string, p: MachinePatch, now: Time, up: bool) returns (r: Result<Machine>)
      modifies this
      ensures r.Ok? == (up && Has(old(t).machines, MachineName, name))
      ensures r.Ok? ==> r.value in t.machines && r.value.name == name
      ensures
        if !up then t == old(t)
        else
          && t == old(t).(machines := t.machines) && |t.machines| == |old(t).machines|
          && forall i :: 0 <= i < |t.machines| ==>
               var m := old(t).machines[i];
               t.machines[i] == if m.name == name then p.On(m).(updatedAt := now) else m
    {
      var cols, args := MachineSetList(p, now);
      var sets := BindMachineSets(cols, args);
      ghost var any: Machine :| true;
      assert SetsMachine(cols, args, any, p.On(any).(updatedAt := now));
      if sets.Err? {
        return Err("update machine");
      }
      var found := Has(t.machines, MachineName, name);
      var ok := Exec(Statement.UpdateMachine(sets.value, name), up);
      if !ok {
        return Err("update machine");
      }
      if !found {
        return Err("machine not found");
      }
      forall m ensures AssignMachine(m, sets.value) == p.On(m).(updatedAt := now) {
        assert SetsMachine(cols, args, m, p.On(m).(updatedAt := now));
      }
      Integrity.RewriteKeeps(old(t).machines, t.machines, MachineName);
      r := GetMachineByName(name);
    }

    /** Renames and/or moves the watcher with this id; refused when the rename would break a reference. */
    method UpdateWatcher(id: int, p: WatcherPatch, now: Time, up: bool) returns (r: Result<Watcher>)
      modifies this
      ensures r.Ok? ==> r.value in t.watchers && r.value.id == id
      ensures
        var blocked := exists w :: w in old(t).watchers && RenameBlocked(old(t), w, id, p);
        && r.Ok? == ((p.Empty() || (up && !blocked)) && Has(old(t).watchers, WatcherId, id))
        && if p.Empty() || !up || blocked then t == old(t)
           else
             && t == old(t).(watchers := t.watchers) && |t.watchers| == |old(t).watchers|
             && forall i :: 0 <= i < |t.watchers| ==>
                  var w, w' := old(t).watchers[i], t.watchers[i];
                  if w.id != id then w' == w
                  else
                    && w'.name == (if p.name.Some? then p.name.value else w.name)
                    && w'.sourcePath == (if p.sourcePath.Some? then p.sourcePath.value else w.sourcePath)
                    && w'.id == w.id && w'.machineName == w.machineName && w'.createdAt == w.createdAt
                    && w'.updatedAt == now
    {
      if p.Empty() {
        r := GetWatcherById(id);
        return;
      }
      r := ExecWatcherUpdate(id, p, now, up);
    }

    /** The UPDATE itself, for a patch that is not empty. */
    method ExecWatcherUpdate(id: int, p: WatcherPatch, now: Time, up: bool) returns (r: Result<Watcher>)
      modifies this
      ensures r.Ok? ==> r.value in t.watchers && r.value.id == id
      ensures
        var blocked := exists w :: w in old(t).watchers && RenameBlocked(old(t), w, id, p);
        && r.Ok? == (up && !blocked && Has(old(t).watchers, WatcherId, id))
        && if !up || blocked then t == old(t)
           else
             && t == old(t).(watchers := t.watchers) && |t.watchers| == |old(t).watchers|
             && forall i :: 0 <= i < |t.watchers| ==>
                  var w := old(t).watchers[i];
                  t.watchers[i] == if w.id == id then p.On(w).(updatedAt := now) else w
    {
      var cols, args := WatcherSetList(p, now);
      var sets := BindWatcherSets(cols, args);
      ghost var any: Watcher :| true;
      assert SetsWatcher(cols, args, any, p.On(any).(updatedAt := now));
      if sets.Err? {
        return Err("update watcher");
      }
      forall w ensures AssignWatcher(w, sets.value) == p.On(w).(updatedAt := now) {
        assert SetsWatcher(cols, args, w, p.On(w).(updatedAt := now));
      }
      var found := Has(t.watchers, WatcherId, id);
      var ok := Exec(Statement.UpdateWatcher(sets.value, id), up);
      if !ok {
        return Err("update watcher");
      }
      if !found {
        return Err("watcher not found");
      }
      Integrity.RewriteKeeps(old(t).watchers, t.watchers, WatcherId);
      r := GetWatcherById(id);
    }
  }

  lemma {:induction false} RejectNothing(files: seq<File>, keys: set<FileKey>)
    requires forall f :: f in files ==> KeyOf(f) !in keys
    ensures Reject(files, KeyOf, keys) == files
  {
    if files != [] {
      RejectNothing(files[1..], keys);
    }
  }

  /** The arguments of UpdateMachine and UpdateWatcher: None where the caller passes nil. */
  datatype MachinePatch = MachinePatch(ip: Option<string>, sshPort: Option<int>, sshUser: Option<string>,
                                       keyPath: Option<string>) {
    predicate Empty() {
      ip.None? && sshPort.None? && sshUser.None? && keyPath.None?
    }

    /** The non-nil fields overwritten. */
    function On(m: Machine): Machine {
      m.(ip := ip.GetOr(m.ip), sshPort := sshPort.GetOr(m.sshPort), sshUser := sshUser.GetOr(m.sshUser),
         keyPath := keyPath.GetOr(m.keyPath))
    }
  }

  datatype WatcherPatch = WatcherPatch(name: Option<string>, sourcePath: Option<string>) {
    predicate Empty() {
      name.None? && sourcePath.None?
    }

    function On(w: Watcher): Watcher {
      w.(name := name.GetOr(w.name), sourcePath := sourcePath.GetOr(w.sourcePath))
    }
  }

  /** The SET list built so far, read back by the driver, is this patch of every row. */
  ghost predicate PatchesMachines(cols: seq<MachineColumn>, args: seq<Value>, p: MachinePatch) {
    forall m :: SetsMachine(cols, args, m, p.On(m))
  }

  ghost predicate PatchesWatchers(cols: seq<WatcherColumn>, args: seq<Value>, p: WatcherPatch) {
    forall w :: SetsWatcher(cols, args, w, p.On(w))
  }

  lemma ExtendMachinePatch(cols: seq<MachineColumn>, args: seq<Value>, p: MachinePatch, c: MachineColumn, v: Value,
                           q: MachinePatch)
    requires PatchesMachines(cols, args, p) && BindMachineSet(c, v).Ok?
    requires forall m :: SetMachine(p.On(m), BindMachineSet(c, v).value) == q.On(m)
    ensures PatchesMachines(cols + [c], args + [v], q)
  {
  }

  lemma ExtendWatcherPatch(cols: seq<WatcherColumn>, args: seq<Value>, p: WatcherPatch, c: WatcherColumn, v: Value,
                           q: WatcherPatch)
    requires PatchesWatchers(cols, args, p) && BindWatcherSet(c, v).Ok?
    requires forall w :: SetWatcher(p.On(w), BindWatcherSet(c, v).value) == q.On(w)
    ensures PatchesWatchers(cols + [c], args + [v], q)
  {
  }

  /** Appends one clause and its argument when the field is not nil. */
  method AppendMachineField(cols: seq<MachineColumn>, args: seq<Value>, c: MachineColumn, v: Option<Value>,
                            ghost p: MachinePatch, ghost q: MachinePatch)
    returns (cols': seq<MachineColumn>, args': seq<Value>)
    requires PatchesMachines(cols, args, p)
    requires v.Some? ==> BindMachineSet(c, v.value).Ok?
    requires v.Some? ==> forall m :: SetMachine(p.On(m), BindMachineSet(c, v.value).value) == q.On(m)
    requires v.None? ==> p == q
    ensures PatchesMachines(cols', args', q)
  {
    cols', args' := cols, args;
    if v.Some? {
      ExtendMachinePatch(cols, args, p, c, v.value, q);
      cols', args' := cols + [c], args + [v.value];
    }
  }

  function TextArg(o: Option<string>): Option<Value> {
    if o.Some? then Some(Text(o.value)) else None
  }

  /** The address, the port, and the key path for the first time. */
  method HostSets(p: MachinePatch) returns (cols: seq<MachineColumn>, args: seq<Value>)
    ensures PatchesMachines(cols, args, p.(sshUser := None))
  {
    ghost var p1 := MachinePatch(p.ip, None, None, None);
    ghost var p2 := p1.(sshPort := p.sshPort);
    ghost var p3 := p2.(keyPath := p.keyPath);
    var port := if p.sshPort.Some? then Some(Integer(p.sshPort.value)) else None;
    cols, args := AppendMachineField([], [], Ip, TextArg(p.ip), MachinePatch(None, None, None, None), p1);
    cols, args := AppendMachineField(cols, args, SshPort, port, p1, p2);
    cols, args := AppendMachineField(cols, args, SshPrivateKeyPath, TextArg(p.keyPath), p2, p3);
  }

  /** One clause and one argument per non-nil field, the key path twice, then the time stamp. */
  method MachineSetList(p: MachinePatch, now: Time) returns (cols: seq<MachineColumn>, args: seq<Value>)
    ensures forall m :: SetsMachine(cols, args, m, p.On(m).(updatedAt := now))
  {
    cols, args := HostSets(p);
    cols, args := AppendMachineField(cols, args, SshUser, TextArg(p.sshUser), p.(sshUser := None), p);
    cols, args := AppendMachineField(cols, args, SshPrivateKeyPath, TextArg(p.keyPath), p, p);
    StampMachines(cols, args, p, now);
    cols, args := cols + [MachineUpdatedAt], args + [Stamp(now)];
  }

  lemma StampMachines(cols: seq<MachineColumn>, args: seq<Value>, p: MachinePatch, now: Time)
    requires PatchesMachines(cols, args, p)
    ensures forall m :: SetsMachine(cols + [MachineUpdatedAt], args + [Stamp(now)], m, p.On(m).(updatedAt := now))
  {
  }

  method AppendWatcherField(cols: seq<WatcherColumn>, args: seq<Value>, c: WatcherColumn, v: Option<Value>,
                            ghost p: WatcherPatch, ghost q: WatcherPatch)
    returns (cols': seq<WatcherColumn>, args': seq<Value>)
    requires PatchesWatchers(cols, args, p)
    requires v.Some? ==> BindWatcherSet(c, v.value).Ok?
    requires v.Some? ==> forall w :: SetWatcher(p.On(w), BindWatcherSet(c, v.value).value) == q.On(w)
    requires v.None? ==> p == q
    ensures PatchesWatchers(cols', args', q)
  {
    cols', args' := cols, args;
    if v.Some? {
      ExtendWatcherPatch(cols, args, p, c, v.value, q);
      cols', args' := cols + [c], args + [v.value];
    }
  }

  method WatcherSetList(p: WatcherPatch, now: Time) returns (cols: seq<WatcherColumn>, args: seq<Value>)
    ensures forall w :: SetsWatcher(cols, args, w, p.On(w).(updatedAt := now))
  {
    ghost var p1 := WatcherPatch(p.name, None);
    cols, args := AppendWatcherField([], [], Name, TextArg(p.name), WatcherPatch(None, None), p1);
    cols, args := AppendWatcherField(cols, args, SourcePath, TextArg(p.sourcePath), p1, p);
    StampWatchers(cols, args, p, now);
    cols, args := cols + [WatcherUpdatedAt], args + [Stamp(now)];
  }

  lemma StampWatchers(cols: seq<WatcherColumn>, args: seq<Value>, p: WatcherPatch, now: Time)
    requires PatchesWatchers(cols, args, p)
    ensures forall w :: SetsWatcher(cols + [WatcherUpdatedAt], args + [Stamp(now)], w, p.On(w).(updatedAt := now))
  {
  }
}
