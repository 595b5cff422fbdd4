/**
  One sync job: list the tracked rows, walk the disk, diff, and save the difference in two separate
  writes, additions first.
 */
module Sync {
  import opened GoSet
  import opened Schema
  import opened Database
  import opened Locks
  import opened Streaming
  import opened Walk
  import Paths

  /** A Go conversion to int32. */
  function ToInt32(n: int): int {
    var m := n % 0x1_0000_0000;
    if m < 0x8000_0000 then m else m - 0x1_0000_0000
  }

  datatype SyncResult = SyncResult(addedCount: int, removedCount: int, addedFiles: set<string>,
                                   removedFiles: seq<string>)

  /**
    What the world contributes to one run: whether the connection and each statement succeed, the
    clock, and the iteration order of Go maps.
   */
  datatype Env = Env(dialOk: bool, listOk: bool, addOk: bool, removeOk: bool, now: Time,
                     order: set<string> -> seq<string>)

  ghost predicate Orders(order: set<string> -> seq<string>) {
    forall s: set<string> :: Lists(order(s), s)
  }

  ghost function SomeList(s: set<string>): (r: seq<string>)
    ensures Lists(r, s)
  {
    if s == {} then []
    else
      var x :| x in s;
      var rest := SomeList(s - {x});
      ListMore(rest, s - {x}, x);
      rest + [x]
  }

  lemma ListMore(s: seq<string>, items: set<string>, x: string)
    requires Lists(s, items) && x !in items
    ensures Lists(s + [x], items + {x})
  {
    assert forall i :: 0 <= i < |s| ==> s[i] in Elements(s);
    assert forall y :: y in s + [x] <==> y in s || y == x;
  }

  /** Such an order exists, so the results that assume one are about real runs. */
  lemma OrdersExist()
    ensures exists order :: Orders(order)
  {
    assert Orders(SomeList);
  }

  // ---------------------------------------------------------------- the job on values

  /** The paths a watcher's rows stand for. */
  ghost function TrackedPaths(files: seq<File>, watcher: string): set<string> {
    if files == [] then {}
    else
      var rest, last := TrackedPaths(files[..|files| - 1], watcher), files[|files| - 1];
      if last.watcherName == watcher then rest + {FullPath(last)} else rest
  }

  /** Some row of the watcher reads back as this path. */
  ghost predicate HasRow(files: seq<File>, watcher: string, path: string) {
    exists f :: f in files && f.watcherName == watcher && Paths.Join(f.filePath, f.fileName) == path
  }

  lemma {:induction false} TrackedMember(files: seq<File>, watcher: string, p: string)
    ensures p in TrackedPaths(files, watcher) <==>
      exists f :: f in files && f.watcherName == watcher && FullPath(f) == p
  {
    if files != [] {
      var front, last := files[..|files| - 1], files[|files| - 1];
      TrackedMember(front, watcher, p);
      assert files == front + [last];
    }
  }

  /** The paths of the listed rows that the walk did not accept, one per row. */
  function Stale(rows: seq<File>, accepted: set<string>): seq<string> {
    if rows == [] then []
    else
      var front, last := Stale(rows[..|rows| - 1], accepted), FullPath(rows[|rows| - 1]);
      if last in accepted then front else front + [last]
  }

  lemma {:induction false} StaleMember(rows: seq<File>, accepted: set<string>, p: string)
    ensures p in Stale(rows, accepted) <==> p !in accepted && exists f :: f in rows && FullPath(f) == p
  {
    if rows != [] {
      var front, last := rows[..|rows| - 1], rows[|rows| - 1];
      StaleMember(front, accepted, p);
      assert rows == front + [last];
    }
  }

  function AfterAdd(t: Tables, watcher: string, paths: seq<string>, flush: bool, now: Time): Tables {
    t.(files := t.files + FreshRows(t.files, watcher, paths, flush, now))
  }

  function AfterRemove(t: Tables, watcher: string, paths: seq<string>): Tables {
    Effect(t, DeleteFiles(PathKeys(watcher, paths)))
  }

  /** The two writes; the second is attempted only after the first succeeded. */
  ghost function SaveOutcome(t: Tables, watcher: string, added: set<string>, removed: seq<string>, flush: bool,
                             env: Env): (Tables, bool) {
    if added != {} && !(env.addOk && Has(t.watchers, WatcherName, watcher)) then (t, false)
    else
      var t1 := if added == {} then t else AfterAdd(t, watcher, env.order(added), flush, env.now);
      if removed == [] then (t1, true)
      else if env.removeOk then (AfterRemove(t1, watcher, removed), true)
      else (t1, false)
  }

  /** A whole run against a disk whose walk accepts `accepted`. */
  ghost function SyncOutcome(t: Tables, watcher: string, accepted: set<string>, flush: bool, env: Env): (Tables,
                             Result<SyncResult>) {
    if !env.dialOk || !env.listOk then (t, Err("sync"))
    else
      var added := accepted - TrackedPaths(t.files, watcher);
      var removed := Stale(Select(t.files, FileWatcher, {watcher}), accepted);
      var (t', ok) := SaveOutcome(t, watcher, added, removed, flush, env);
      if ok then (t', Ok(SyncResult(ToInt32(|added|), ToInt32(|removed|), added, removed)))
      else (t', Err("sync"))
  }

  // ---------------------------------------------------------------- the job

  class SyncJob {
    const watcher: Watcher
    const db: DB
    /** What the machine's file system will show. */
    const walks: string -> seq<Entry>
    const ignoreFile: IgnoreFile
    ghost const dirs: set<string>
    /** Receives a LOG event at each major step; null when nobody listens. */
    const stream: Stream?
    /** Where the lock of the watcher is kept; null for the job of a watcher created with its existing files. */
    ghost const locks: SyncLocks?

    constructor (watcher: Watcher, db: DB, walks: string -> seq<Entry>, ignoreFile: IgnoreFile, ghost dirs: set<string>,
                 stream: Stream?, ghost locks: SyncLocks?)
      ensures this.watcher == watcher && this.db == db && this.walks == walks && this.ignoreFile == ignoreFile
      ensures this.dirs == dirs && this.stream == stream && this.locks == locks
    {
      this.watcher, this.db, this.walks, this.ignoreFile := watcher, db, walks, ignoreFile;
      this.dirs, this.stream, this.locks := dirs, stream, locks;
    }

    /** What the walk of this job's disk accepts. */
    ghost function Accepted(): set<string> {
      AcceptedSet(walks, LoadIgnore(ignoreFile), watcher.sourcePath, dirs)
    }

    /** Best effort: a failed send is ignored. */
    method LogMessage(msg: string)
      modifies stream
      ensures stream != null ==> OnlyLogs(old(stream.sent), stream.sent)
    {
      if stream != null {
        var _ := stream.Send(Log(msg));
      }
    }

    method OpenRemoteFS(env: Env) returns (rfs: RemoteFS?)
      ensures if env.dialOk then rfs != null && fresh(rfs) && rfs.walks == walks && rfs.ignoreFile == ignoreFile
                && rfs.dirs == dirs && rfs.started == []
              else rfs == null
    {
      rfs := null;
      if env.dialOk {
        rfs := new RemoteFS(walks, ignoreFile, dirs);
      }
    }

    method SaveUpdates(added: Set<string>, removed: seq<string>, flush: bool, env: Env) returns (ok: bool)
      requires added.Valid() && Orders(env.order)
      modifies db
      ensures (db.t, ok) == SaveOutcome(old(db.t), watcher.name, added.items, removed, flush, env)
    {
      ok := SaveAdditions(added, flush, env);
      if !ok {
        return;
      }
      if |removed| > 0 {
        ok := db.BulkRemoveWatchedFiles(watcher.name, removed, env.removeOk);
      }
    }

    method SaveAdditions(added: Set<string>, flush: bool, env: Env) returns (ok: bool)
      requires added.Valid() && Orders(env.order)
      modifies db
      ensures ok == (added.items == {} || (env.addOk && Has(old(db.t).watchers, WatcherName, watcher.name)))
      ensures db.t == if added.items != {} && ok
                      then AfterAdd(old(db.t), watcher.name, env.order(added.items), flush, env.now) else old(db.t)
    {
      var n := added.Size();
      if n == 0 {
        return true;
      }
      var r := db.BulkAddWatchedFiles(watcher.name, added, flush, env.now, env.order(added.items), env.addOk);
      return r.Ok?;
    }

    method TrackedSet(watched: seq<WatchedFile>) returns (tracked: Set<string>)
      ensures fresh(tracked) && tracked.Valid() && tracked.items == set w | w in watched :: w.filePath
    {
      tracked := new Set<string>();
      for i := 0 to |watched|
        invariant fresh(tracked) && tracked.Valid() && tracked.items == set w | w in watched[..i] :: w.filePath
      {
        assert watched[..i + 1] == watched[..i] + [watched[i]];
        tracked.Add(watched[i].filePath);
      }
      assert watched[..|watched|] == watched;
    }

    method RemovedFiles(watched: seq<WatchedFile>, onDisk: Set<string>, ghost rows: seq<File>)
      returns (removed: seq<string>)
      requires |watched| == |rows| && forall i :: 0 <= i < |rows| ==> watched[i] == AsWatched(rows[i])
      ensures removed == Stale(rows, onDisk.items)
    {
      removed := [];
      for i := 0 to |watched|
        invariant removed == Stale(rows[..i], onDisk.items)
      {
        assert rows[..i + 1][..i] == rows[..i];
        var present := onDisk.Contains(watched[i].filePath);
        if !present {
          removed := removed + [watched[i].filePath];
        }
      }
      assert rows[..|rows|] == rows;
    }

    /** Walks the disk and splits what it shows against the tracked rows. */
    method Diff(rfs: RemoteFS, watched: seq<WatchedFile>, ghost rows: seq<File>)
      returns (added: Set<string>, removed: seq<string>)
      requires Bounded(walks, watcher.sourcePath, dirs)
      requires rfs.walks == walks && rfs.ignoreFile == ignoreFile && rfs.dirs == dirs && rfs.started == []
      requires |watched| == |rows| && forall i :: 0 <= i < |rows| ==> watched[i] == AsWatched(rows[i])
      modifies rfs, stream
      ensures fresh(added) && added.Valid()
      ensures added.items == Accepted() - set w | w in watched :: w.filePath
      ensures removed == Stale(rows, Accepted())
      ensures stream != null ==> OnlyLogs(old(stream.sent), stream.sent)
    {
      var tracked := TrackedSet(watched);
      LogMessage("loading ignore rules");
      var ignorer := LoadIgnore(rfs.ignoreFile);
      if rfs.ignoreFile.Unreadable? {
        LogMessage("ignoring rules");
      }
      LogMessage("walking source path");
      var onDisk: Set<string>;
      onDisk, added := HandleCurrentPaths(rfs, watcher.sourcePath, tracked, ignorer);
      AcceptedSetExact(walks, ignorer, watcher.sourcePath, dirs);
      assert onDisk.items == Accepted();
      LogMessage("computing removed files");
      removed := RemovedFiles(watched, onDisk, rows);
    }

    /**
      The run does to the database, and answers, exactly what SyncOutcome says of the accepted paths. But for
      the job of a new watcher, it runs while the lock of its watcher is held.
     */
    method Run(flush: bool, env: Env) returns (r: Result<SyncResult>)
      requires Orders(env.order) && Bounded(walks, watcher.sourcePath, dirs)
      requires !flush ==> locks != null && watcher.name in locks.Held()
      modifies db, stream
      ensures (db.t, r) == SyncOutcome(old(db.t), watcher.name, Accepted(), flush, env)
      ensures r.Ok? ==> forall p :: p in r.value.addedFiles <==>
        Seen(walks, ignoreFile, watcher.sourcePath, p) && !HasRow(old(db.t).files, watcher.name, p)
      ensures r.Ok? ==> forall p :: p in r.value.removedFiles <==>
        !Seen(walks, ignoreFile, watcher.sourcePath, p) && HasRow(old(db.t).files, watcher.name, p)
      ensures r.Ok? ==> r.value.addedCount == ToInt32(|r.value.addedFiles|)
      ensures r.Ok? ==> r.value.removedCount == ToInt32(|r.value.removedFiles|)
      ensures stream != null ==> OnlyLogs(old(stream.sent), stream.sent)
    {
      r := RunSteps(flush, env);
      OutcomeSees(walks, ignoreFile, watcher.sourcePath, dirs, old(db.t), watcher.name, flush, env);
    }

    /** The steps of the run. */
    method RunSteps(flush: bool, env: Env) returns (r: Result<SyncResult>)
      requires Orders(env.order) && Bounded(walks, watcher.sourcePath, dirs)
      requires !flush ==> locks != null && watcher.name in locks.Held()
      modifies db, stream
      ensures (db.t, r) == SyncOutcome(old(db.t), watcher.name, Accepted(), flush, env)
      ensures stream != null ==> OnlyLogs(old(stream.sent), stream.sent)
    {
      var rfs := OpenRemoteFS(env);
      if rfs == null {
        return Err("sync");
      }
      LogMessage("loading watched files from database");
      var watched := db.ListWatchedFiles(watcher.name, env.listOk);
      if watched.Err? {
        return Err("sync");
      }
      ListedPaths(watched.value, db.t.files, watcher.name);
      var added, removed := Diff(rfs, watched.value, Select(db.t.files, FileWatcher, {watcher.name}));
      LogMessage("saving updates to database");
      r := SaveAndReport(added, removed, flush, env);
    }

    /** The two writes, and what they are reported as. */
    method SaveAndReport(added: Set<string>, removed: seq<string>, flush: bool, env: Env)
      returns (r: Result<SyncResult>)
      requires added.Valid() && Orders(env.order)
      modifies db
      ensures db.t == SaveOutcome(old(db.t), watcher.name, added.items, removed, flush, env).0
      ensures r == if SaveOutcome(old(db.t), watcher.name, added.items, removed, flush, env).1
                   then Ok(SyncResult(ToInt32(|added.items|), ToInt32(|removed|), added.items, removed))
                     else Err("sync")
    {
      var ok := SaveUpdates(added, removed, flush, env);
      if !ok {
        return Err("sync");
      }
      var n := added.Size();
      return Ok(SyncResult(ToInt32(n), ToInt32(|removed|), added.items, removed));
    }
  }

  /** What the diff says of each path: seen by the walk or not, standing in the table or not. */
  lemma DiffSees(walks: string -> seq<Entry>, f: IgnoreFile, root: string, dirs: set<string>, files: seq<File>,
                 watcher: string)
    requires Bounded(walks, root, dirs)
    ensures var accepted := AcceptedSet(walks, LoadIgnore(f), root, dirs);
            && (forall p :: p in accepted - TrackedPaths(files, watcher) <==>
                  Seen(walks, f, root, p) && !HasRow(files, watcher, p))
            && (forall p :: p in Stale(Select(files, FileWatcher, {watcher}), accepted) <==>
                  !Seen(walks, f, root, p) && HasRow(files, watcher, p))
  {
    var accepted, rows := AcceptedSet(walks, LoadIgnore(f), root, dirs), Select(files, FileWatcher, {watcher});
    AcceptedSetExact(walks, LoadIgnore(f), root, dirs);
    forall p
      ensures p in accepted <==> Seen(walks, f, root, p)
      ensures p in TrackedPaths(files, watcher) <==> HasRow(files, watcher, p)
      ensures p in Stale(rows, accepted) <==> p !in accepted && HasRow(files, watcher, p)
    {
      AcceptsExactly(walks, f, root, p);
      TrackedMember(files, watcher, p);
      StaleMember(rows, accepted, p);
    }
  }

  /** What a successful run reports, told by the walk and the rows. */
  lemma OutcomeSees(walks: string -> seq<Entry>, f: IgnoreFile, root: string, dirs: set<string>, t: Tables,
                    watcher: string, flush: bool, env: Env)
    requires Bounded(walks, root, dirs)
    ensures var r := SyncOutcome(t, watcher, AcceptedSet(walks, LoadIgnore(f), root, dirs), flush, env).1;
            r.Ok? ==>
              && r.value.addedCount == ToInt32(|r.value.addedFiles|)
              && r.value.removedCount == ToInt32(|r.value.removedFiles|)
              && (forall p :: p in r.value.addedFiles <==> Seen(walks, f, root, p) && !HasRow(t.files, watcher, p))
              && (forall p :: p in r.value.removedFiles <==> !Seen(walks, f, root, p) && HasRow(t.files, watcher, p))
  {
    DiffSees(walks, f, root, dirs, t.files, watcher);
  }

  /** The set built from a listing is the set of tracked paths. */
  lemma ListedPaths(watched: seq<WatchedFile>, files: seq<File>, watcher: string)
    requires var rows := Select(files, FileWatcher, {watcher});
             |watched| == |rows| && forall i :: 0 <= i < |rows| ==> watched[i] == AsWatched(rows[i])
    ensures (set w | w in watched :: w.filePath) == TrackedPaths(files, watcher)
  {
    var rows := Select(files, FileWatcher, {watcher});
    forall p ensures p in (set w | w in watched :: w.filePath) <==> p in TrackedPaths(files, watcher) {
      TrackedMember(files, watcher, p);
      if w :| w in watched && w.filePath == p {
        var i :| 0 <= i < |watched| && watched[i] == w;
        assert rows[i] in rows;
      }
      if f :| f in files && f.watcherName == watcher && FullPath(f) == p {
        assert f in rows;
        var i :| 0 <= i < |rows| && rows[i] == f;
        assert watched[i] in watched;
      }
    }
  }
}
