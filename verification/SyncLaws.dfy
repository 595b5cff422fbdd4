/**
  What a sync means for the table: exactness, idempotence, conservation, recovery after a failed
  second write.
 */
module SyncLaws {
  import opened GoSet
  import opened Schema
  import opened Database
  import opened Sync
  import Paths

  // ---------------------------------------------------------------- the rows that stay

  /** A row of this watcher whose path the walk did not accept. */
  predicate Gone(f: File, watcher: string, accepted: set<string>) {
    f.watcherName == watcher && FullPath(f) !in accepted
  }

  /** The rows a sync keeps, unchanged and in order. */
  function Surviving(files: seq<File>, watcher: string, accepted: set<string>): (r: seq<File>)
    ensures forall f :: f in r <==> f in files && !Gone(f, watcher, accepted)
  {
    if files == [] then []
    else
      var rest := Surviving(files[1..], watcher, accepted);
      if Gone(files[0], watcher, accepted) then rest else [files[0]] + rest
  }

  /** Every row stores the key of a clean path; the store keeps this as long as walked paths are clean. */
  ghost predicate AllKeyed(files: seq<File>) {
    forall f :: f in files ==> WellKeyed(f)
  }

  ghost predicate AllClean(paths: set<string>) {
    forall p :: p in paths ==> Paths.IsClean(p)
  }

  lemma FreshRowKeyed(watcher: string, path: string, flush: bool, now: Time, id: int)
    requires Paths.IsClean(path)
    ensures var f := NewRow(watcher, path, flush, now).Row(id);
            FullPath(f) == path && WellKeyed(f) && KeyOf(f) == PathKey(watcher, path)
  {
    Paths.PathRoundTrip(path);
  }

  lemma FreshKeyed(files: seq<File>, watcher: string, paths: seq<string>, flush: bool, now: Time)
    requires forall i :: 0 <= i < |paths| ==> Paths.IsClean(paths[i])
    ensures var rows := FreshRows(files, watcher, paths, flush, now);
            AllKeyed(rows) && forall i :: 0 <= i < |paths| ==>
              FullPath(rows[i]) == paths[i] && rows[i].watcherName == watcher
  {
    var rows := FreshRows(files, watcher, paths, flush, now);
    forall i | 0 <= i < |paths| ensures FullPath(rows[i]) == paths[i] && WellKeyed(rows[i]) {
      FreshRowKeyed(watcher, paths[i], flush, now, MaxId(files, FileId) + 1 + i);
    }
  }

  // ---------------------------------------------------------------- the diff

  /** A bulk remove of clean paths deletes exactly the watcher's rows that read back as one of them. */
  lemma RemovesExactly(watcher: string, paths: seq<string>, f: File)
    requires WellKeyed(f) && forall p :: p in paths ==> Paths.IsClean(p)
    ensures KeyOf(f) in PathKeys(watcher, paths) <==> f.watcherName == watcher && FullPath(f) in paths
  {
    if KeyOf(f) in PathKeys(watcher, paths) {
      var p :| p in paths && PathKey(watcher, p) == KeyOf(f);
      Paths.PathKeyInjective(p, FullPath(f));
    }
  }

  lemma StaleClean(files: seq<File>, watcher: string, accepted: set<string>)
    requires AllKeyed(files)
    ensures forall p :: p in Stale(Select(files, FileWatcher, {watcher}), accepted) ==> Paths.IsClean(p)
  {
    var rows := Select(files, FileWatcher, {watcher});
    forall p | p in Stale(rows, accepted) ensures Paths.IsClean(p) {
      StaleMember(rows, accepted, p);
      var g :| g in rows && FullPath(g) == p;
    }
  }

  /** A row is deleted exactly when its own path is gone. */
  lemma DeadExactlyGone(files: seq<File>, watcher: string, accepted: set<string>, f: File)
    requires f in files && AllKeyed(files)
    ensures KeyOf(f) in PathKeys(watcher, Stale(Select(files, FileWatcher, {watcher}), accepted)) <==>
      Gone(f, watcher, accepted)
  {
    var rows := Select(files, FileWatcher, {watcher});
    StaleClean(files, watcher, accepted);
    StaleMember(rows, accepted, FullPath(f));
    RemovesExactly(watcher, Stale(rows, accepted), f);
    assert f.watcherName == watcher ==> f in rows;
  }

  lemma {:induction false} RejectGone(files: seq<File>, watcher: string, accepted: set<string>, dead: set<FileKey>)
    requires forall f :: f in files ==> (KeyOf(f) in dead <==> Gone(f, watcher, accepted))
    ensures Reject(files, KeyOf, dead) == Surviving(files, watcher, accepted)
  {
    if files != [] {
      RejectGone(files[1..], watcher, accepted, dead);
    }
  }

  /** Accepted rows are not among the dead keys: what was just added survives the removal. */
  lemma FreshNotDead(files: seq<File>, watcher: string, accepted: set<string>, f: File)
    requires AllKeyed(files) && WellKeyed(f) && f.watcherName == watcher && FullPath(f) in accepted
    ensures KeyOf(f) !in PathKeys(watcher, Stale(Select(files, FileWatcher, {watcher}), accepted))
  {
    var rows := Select(files, FileWatcher, {watcher});
    StaleClean(files, watcher, accepted);
    StaleMember(rows, accepted, FullPath(f));
    RemovesExactly(watcher, Stale(rows, accepted), f);
  }

  // ---------------------------------------------------------------- main result: exactness

  /** The accepted paths no row of the watcher stands for. */
  ghost function Untracked(files: seq<File>, watcher: string, accepted: set<string>): set<string> {
    accepted - TrackedPaths(files, watcher)
  }

  /** The paths of the watcher's rows that the walk did not accept. */
  ghost function Vanished(files: seq<File>, watcher: string, accepted: set<string>): seq<string> {
    Stale(Select(files, FileWatcher, {watcher}), accepted)
  }

  /** The rows the first write of a sync appends. */
  ghost function Additions(files: seq<File>, watcher: string, accepted: set<string>, flush: bool, env: Env): seq<File> {
    FreshRows(files, watcher, env.order(Untracked(files, watcher, accepted)), flush, env.now)
  }

  /** The table after a sync: the surviving rows, then one new row per accepted untracked path. */
  ghost function Synced(files: seq<File>, watcher: string, accepted: set<string>, flush: bool, env: Env): seq<File> {
    Surviving(files, watcher, accepted) + Additions(files, watcher, accepted, flush, env)
  }

  /** Some path the first write adds has the stored key of some path the second write removes. */
  ghost predicate Clash(files: seq<File>, watcher: string, accepted: set<string>) {
    exists p, v :: p in Untracked(files, watcher, accepted) && v in Vanished(files, watcher, accepted)
                   && PathKey(watcher, p) == PathKey(watcher, v)
  }

  lemma CleanNeverClash(files: seq<File>, watcher: string, accepted: set<string>)
    requires AllKeyed(files) && AllClean(accepted)
    ensures !Clash(files, watcher, accepted)
  {
    forall p | p in Untracked(files, watcher, accepted)
      ensures PathKey(watcher, p) !in PathKeys(watcher, Vanished(files, watcher, accepted))
    {
      FreshRowKeyed(watcher, p, false, 0, 0);
      FreshNotDead(files, watcher, accepted, NewRow(watcher, p, false, 0).Row(0));
    }
  }

  lemma {:induction false} RejectLength(files: seq<File>, dead: set<FileKey>)
    ensures |Reject(files, KeyOf, dead)| <= |files|
    ensures |Reject(files, KeyOf, dead)| == |files| <==> forall f :: f in files ==> KeyOf(f) !in dead
  {
    if files != [] {
      RejectLength(files[1..], dead);
      assert files[0] in files && forall f :: f in files <==> f == files[0] || f in files[1..];
    }
  }

  /** Rows written in some order are spared exactly when none of their paths has a dead key. */
  lemma RowsSpared(files: seq<File>, watcher: string, order: seq<string>, flush: bool, now: Time, dead: set<FileKey>)
    ensures var rows := FreshRows(files, watcher, order, flush, now);
            if exists p :: p in order && PathKey(watcher, p) in dead then |Reject(rows, KeyOf, dead)| < |rows|
            else Reject(rows, KeyOf, dead) == rows
  {
    var rows := FreshRows(files, watcher, order, flush, now);
    RejectLength(rows, dead);
    if p :| p in order && PathKey(watcher, p) in dead {
      var i :| 0 <= i < |order| && order[i] == p;
      assert rows[i] in rows && KeyOf(rows[i]) in dead;
    } else {
      forall f | f in rows ensures KeyOf(f) !in dead {
        var i :| 0 <= i < |rows| && rows[i] == f;
        assert order[i] in order;
      }
      RejectNothing(rows, dead);
    }
  }

  /** The removal spares every addition exactly when no keys clash. */
  lemma AdditionsSpared(files: seq<File>, watcher: string, accepted: set<string>, flush: bool, env: Env)
    requires Orders(env.order)
    ensures var newRows := Additions(files, watcher, accepted, flush, env);
            var left := Reject(newRows, KeyOf, PathKeys(watcher, Vanished(files, watcher, accepted)));
            if Clash(files, watcher, accepted) then |left| < |newRows| else left == newRows
  {
    var untracked, vanished := Untracked(files, watcher, accepted), Vanished(files, watcher, accepted);
    var order := env.order(untracked);
    assert Lists(order, untracked);
    assert forall p :: p in order <==> p in Elements(order);
    RowsSpared(files, watcher, order, flush, env.now, PathKeys(watcher, vanished));
  }

  lemma RemoveAfterAdd(files: seq<File>, watcher: string, accepted: set<string>, newRows: seq<File>)
    requires AllKeyed(files)
    ensures var dead := PathKeys(watcher, Vanished(files, watcher, accepted));
            Reject(files + newRows, KeyOf, dead) == Surviving(files, watcher, accepted) + Reject(newRows, KeyOf, dead)
  {
    var dead := PathKeys(watcher, Vanished(files, watcher, accepted));
    forall f | f in files ensures KeyOf(f) in dead <==> Gone(f, watcher, accepted) {
      DeadExactlyGone(files, watcher, accepted, f);
    }
    RejectGone(files, watcher, accepted, dead);
    RejectConcat(files, newRows, KeyOf, dead);
  }

  lemma {:induction false} SurvivingAll(files: seq<File>, watcher: string, accepted: set<string>)
    requires forall f :: f in files ==> !Gone(f, watcher, accepted)
    ensures Surviving(files, watcher, accepted) == files
  {
    if files != [] {
      SurvivingAll(files[1..], watcher, accepted);
    }
  }

  /** The additions stand for the untracked paths, one row each. */
  ghost predicate StandsFor(rows: seq<File>, watcher: string, paths: set<string>) {
    && |rows| == |paths|
    && (forall f :: f in rows ==> f.watcherName == watcher && FullPath(f) in paths)
    && (forall p :: p in paths ==> exists f :: f in rows && FullPath(f) == p)
  }

  lemma OrderedRows(files: seq<File>, watcher: string, order: seq<string>, added: set<string>, flush: bool, now: Time)
    requires Lists(order, added) && AllClean(added)
    ensures AllKeyed(FreshRows(files, watcher, order, flush, now))
    ensures StandsFor(FreshRows(files, watcher, order, flush, now), watcher, added)
  {
    ListLength(order, added);
    forall i | 0 <= i < |order| ensures order[i] in added {
      assert order[i] in Elements(order);
    }
    FreshKeyed(files, watcher, order, flush, now);
    var rows := FreshRows(files, watcher, order, flush, now);
    forall p | p in added ensures exists f :: f in rows && FullPath(f) == p {
      assert p in Elements(order);
      var i :| 0 <= i < |order| && order[i] == p;
      assert rows[i] in rows;
    }
  }

  lemma AddedRows(files: seq<File>, watcher: string, accepted: set<string>, flush: bool, env: Env)
    requires Orders(env.order) && AllClean(accepted)
    ensures AllKeyed(Additions(files, watcher, accepted, flush, env))
    ensures StandsFor(Additions(files, watcher, accepted, flush, env), watcher, Untracked(files, watcher, accepted))
  {
    var added := Untracked(files, watcher, accepted);
    assert Lists(env.order(added), added);
    OrderedRows(files, watcher, env.order(added), added, flush, env.now);
  }

  lemma EmptyOrder(env: Env)
    requires Orders(env.order)
    ensures env.order({}) == []
  {
    assert Lists(env.order({}), {});
    ListLength(env.order({}), {});
  }

  lemma SingleOrder(env: Env, q: string)
    requires Orders(env.order)
    ensures env.order({q}) == [q]
  {
    var o := env.order({q});
    assert Lists(o, {q});
    ListLength(o, {q});
    assert o[0] in Elements(o);
  }

  /** Adding nothing and removing nothing are the general writes with nothing in them. */
  lemma AddShape(t: Tables, watcher: string, added: set<string>, flush: bool, env: Env)
    requires Orders(env.order)
    ensures (if added == {} then t else AfterAdd(t, watcher, env.order(added), flush, env.now))
            == t.(files := t.files + FreshRows(t.files, watcher, env.order(added), flush, env.now))
  {
    if added == {} {
      EmptyOrder(env);
      assert t.files + FreshRows(t.files, watcher, [], flush, env.now) == t.files;
    }
  }

  lemma RemoveShape(t: Tables, watcher: string, removed: seq<string>)
    ensures (if removed == [] then t else AfterRemove(t, watcher, removed))
            == t.(files := Reject(t.files, KeyOf, PathKeys(watcher, removed)))
  {
    if removed == [] {
      assert PathKeys(watcher, removed) == {};
      RejectNothing(t.files, {});
    }
  }

  lemma SaveShape(t: Tables, watcher: string, added: set<string>, removed: seq<string>, flush: bool, env: Env)
    requires Orders(env.order)
    ensures var all := t.(files := t.files + FreshRows(t.files, watcher, env.order(added), flush, env.now));
            var (t', ok) := SaveOutcome(t, watcher, added, removed, flush, env);
            if ok then t' == all.(files := Reject(all.files, KeyOf, PathKeys(watcher, removed)))
            else t' == t || t' == all
  {
    AddShape(t, watcher, added, flush, env);
    RemoveShape(t.(files := t.files + FreshRows(t.files, watcher, env.order(added), flush, env.now)), watcher, removed);
  }

  /** A run ends with both writes done, with the additions only, or with the table as it was. */
  lemma SyncShape(t: Tables, watcher: string, accepted: set<string>, flush: bool, env: Env)
    requires Orders(env.order)
    ensures var (t', r) := SyncOutcome(t, watcher, accepted, flush, env);
            var all := t.files + Additions(t.files, watcher, accepted, flush, env);
            if r.Ok? then t' == t.(files := Reject(all, KeyOf, PathKeys(watcher, Vanished(t.files, watcher, accepted))))
            else t' == t || t' == t.(files := all)
  {
    SaveShape(t, watcher, Untracked(t.files, watcher, accepted), Vanished(t.files, watcher, accepted), flush, env);
  }

  /** What a successful run leaves, whatever the walk accepted. */
  lemma SyncLeaves(t: Tables, watcher: string, accepted: set<string>, flush: bool, env: Env)
    requires Orders(env.order) && AllKeyed(t.files)
    ensures var (t', r) := SyncOutcome(t, watcher, accepted, flush, env);
            var newRows := Additions(t.files, watcher, accepted, flush, env);
            r.Ok? ==> t' == t.(files := Surviving(t.files, watcher, accepted)
                                        + Reject(newRows, KeyOf,
                                                 PathKeys(watcher, Vanished(t.files, watcher, accepted))))
  {
    SyncShape(t, watcher, accepted, flush, env);
    RemoveAfterAdd(t.files, watcher, accepted, Additions(t.files, watcher, accepted, flush, env));
  }

  /**
    A successful run ends with exactly the old rows whose path the walk accepted, unchanged and in
    order, and the rows of every other watcher, followed by one new row per accepted untracked path, if
    and only if no added path has the stored key of a vanished one. Clean paths never clash.
   */
  lemma SyncExact(t: Tables, watcher: string, accepted: set<string>, flush: bool, env: Env)
    requires Orders(env.order) && AllKeyed(t.files)
    ensures var (t', r) := SyncOutcome(t, watcher, accepted, flush, env);
            r.Ok? ==> (t' == t.(files := Synced(t.files, watcher, accepted, flush, env)) <==>
                       !Clash(t.files, watcher, accepted))
    ensures AllClean(accepted) ==>
              !Clash(t.files, watcher, accepted) && AllKeyed(SyncOutcome(t, watcher, accepted, flush, env).0.files)
  {
    SyncLeaves(t, watcher, accepted, flush, env);
    AdditionsSpared(t.files, watcher, accepted, flush, env);
    if AllClean(accepted) {
      CleanNeverClash(t.files, watcher, accepted);
      SyncShape(t, watcher, accepted, flush, env);
      AddedRows(t.files, watcher, accepted, flush, env);
    }
  }

  lemma {:induction false} SurvivingOthers(files: seq<File>, watcher: string, accepted: set<string>)
    ensures Reject(Surviving(files, watcher, accepted), FileWatcher, {watcher}) == Reject(files, FileWatcher, {watcher})
  {
    if files != [] {
      SurvivingOthers(files[1..], watcher, accepted);
    }
  }

  lemma {:induction false} RejectAll(files: seq<File>, watcher: string)
    requires forall f :: f in files ==> f.watcherName == watcher
    ensures Reject(files, FileWatcher, {watcher}) == []
  {
    if files != [] {
      RejectAll(files[1..], watcher);
    }
  }

  /** The rows of other watchers are the same sequence after a sync, whatever its outcome. */
  lemma OthersUntouched(t: Tables, watcher: string, accepted: set<string>, flush: bool, env: Env)
    requires Orders(env.order)
    ensures var (t', r) := SyncOutcome(t, watcher, accepted, flush, env);
            Reject(t'.files, FileWatcher, {watcher}) == Reject(t.files, FileWatcher, {watcher})
  {
    var newRows := Additions(t.files, watcher, accepted, flush, env);
    SyncShape(t, watcher, accepted, flush, env);
    RejectAll(newRows, watcher);
    RejectConcat(t.files, newRows, FileWatcher, {watcher});
    RejectSwap(t.files + newRows, watcher, PathKeys(watcher, Vanished(t.files, watcher, accepted)));
  }

  /** Deleting rows of one watcher by key does not show in the rows of the others. */
  lemma {:induction false} RejectSwap(files: seq<File>, watcher: string, dead: set<FileKey>)
    requires forall k :: k in dead ==> k.watcherName == watcher
    ensures Reject(Reject(files, KeyOf, dead), FileWatcher, {watcher}) == Reject(files, FileWatcher, {watcher})
  {
    if files != [] {
      RejectSwap(files[1..], watcher, dead);
    }
  }

  // ---------------------------------------------------------------- idempotence

  /** After a sync the watcher tracks exactly the accepted paths. */
  lemma TracksAccepted(files: seq<File>, watcher: string, accepted: set<string>, newRows: seq<File>)
    requires StandsFor(newRows, watcher, Untracked(files, watcher, accepted))
    ensures TrackedPaths(Surviving(files, watcher, accepted) + newRows, watcher) == accepted
  {
    var after := Surviving(files, watcher, accepted) + newRows;
    forall p ensures p in TrackedPaths(after, watcher) <==> p in accepted {
      TrackedMember(after, watcher, p);
      TrackedMember(files, watcher, p);
      if p in accepted && p in TrackedPaths(files, watcher) {
        var f :| f in files && f.watcherName == watcher && FullPath(f) == p;
        assert f in after;
      } else if p in accepted {
        assert p in Untracked(files, watcher, accepted);
        var f :| f in newRows && FullPath(f) == p;
        assert f in after;
      }
    }
  }

  lemma NothingStale(rows: seq<File>, accepted: set<string>)
    requires forall f :: f in rows ==> FullPath(f) in accepted
    ensures Stale(rows, accepted) == []
  {
  }

  /** A second sync of an unchanged disk reports 0 and 0 and leaves the table alone, whatever fails in it. */
  lemma SyncIdempotent(t: Tables, watcher: string, accepted: set<string>, flush: bool, env: Env, flush': bool,
                       env': Env)
    requires Orders(env.order) && Orders(env'.order) && AllKeyed(t.files) && AllClean(accepted)
    ensures var (t', r) := SyncOutcome(t, watcher, accepted, flush, env);
            r.Ok? ==>
              var (t2, r2) := SyncOutcome(t', watcher, accepted, flush', env');
              t2 == t' && (r2.Ok? ==> r2.value == SyncResult(0, 0, {}, []))
  {
    SyncExact(t, watcher, accepted, flush, env);
    var (t', r) := SyncOutcome(t, watcher, accepted, flush, env);
    if r.Ok? {
      AddedRows(t.files, watcher, accepted, flush, env);
      TracksAccepted(t.files, watcher, accepted, Additions(t.files, watcher, accepted, flush, env));
      SettledSync(t', watcher, accepted, flush', env');
    }
  }

  /** Syncing a table that already tracks exactly the accepted paths. */
  lemma SettledSync(t: Tables, watcher: string, accepted: set<string>, flush: bool, env: Env)
    requires TrackedPaths(t.files, watcher) == accepted
    ensures var (t', r) := SyncOutcome(t, watcher, accepted, flush, env);
            t' == t && (r.Ok? ==> r.value == SyncResult(0, 0, {}, []))
  {
    var rows := Select(t.files, FileWatcher, {watcher});
    forall f | f in rows ensures FullPath(f) in accepted {
      TrackedMember(t.files, watcher, FullPath(f));
    }
    NothingStale(rows, accepted);
    assert accepted - TrackedPaths(t.files, watcher) == {};
  }

  /** Whatever path a row was written for, reading it back gives a clean path. */
  lemma ReadsBackClean(watcher: string, path: string, flush: bool, now: Time, id: int)
    ensures Paths.IsClean(FullPath(NewRow(watcher, path, flush, now).Row(id)))
  {
    Paths.CleanIsCanonical(Paths.Head(path));
    Paths.ParseRender(Paths.Rooted(Paths.Head(path)), Paths.Parts(Paths.Head(path)));
    Paths.CleanIdempotent(Paths.Dir(path) + "/" + Paths.Base(path));
  }

  lemma FreshReadClean(files: seq<File>, watcher: string, paths: seq<string>, flush: bool, now: Time, f: File)
    requires f in FreshRows(files, watcher, paths, flush, now)
    ensures Paths.IsClean(FullPath(f))
  {
    var rows := FreshRows(files, watcher, paths, flush, now);
    var i :| 0 <= i < |rows| && rows[i] == f;
    ReadsBackClean(watcher, paths[i], flush, now, f.id);
  }

  /** A path that is not clean is never tracked, even right after a sync that added it. */
  lemma UncleanStaysUntracked(t: Tables, watcher: string, accepted: set<string>, flush: bool, env: Env, p: string)
    requires Orders(env.order) && AllKeyed(t.files) && !Paths.IsClean(p)
    ensures p !in TrackedPaths(SyncOutcome(t, watcher, accepted, flush, env).0.files, watcher)
  {
    var t' := SyncOutcome(t, watcher, accepted, flush, env).0;
    var newRows := Additions(t.files, watcher, accepted, flush, env);
    SyncShape(t, watcher, accepted, flush, env);
    assert forall f :: f in t'.files ==> f in t.files || f in newRows;
    TrackedMember(t'.files, watcher, p);
    if f :| f in t'.files && FullPath(f) == p && f in newRows {
      FreshReadClean(t.files, watcher, env.order(Untracked(t.files, watcher, accepted)), flush, env.now, f);
    }
  }

  /** The row written for a clean accepted path outlives the removal. */
  lemma CleanRowStays(files: seq<File>, watcher: string, accepted: set<string>, flush: bool, env: Env, p: string)
    requires Orders(env.order) && AllKeyed(files) && p in Untracked(files, watcher, accepted) && Paths.IsClean(p)
    ensures exists f :: f in Reject(Additions(files, watcher, accepted, flush, env), KeyOf,
                                    PathKeys(watcher, Vanished(files, watcher, accepted)))
                        && f.watcherName == watcher && FullPath(f) == p
  {
    var untracked, newRows := Untracked(files, watcher, accepted), Additions(files, watcher, accepted, flush, env);
    var order := env.order(untracked);
    assert Lists(order, untracked) && p in Elements(order);
    var i :| 0 <= i < |order| && order[i] == p;
    FreshRowKeyed(watcher, p, flush, env.now, newRows[i].id);
    FreshNotDead(files, watcher, accepted, newRows[i]);
    assert newRows[i] in newRows;
  }

  /** A clean accepted path is tracked after a successful run, whatever else the walk accepted. */
  lemma CleanGetsTracked(t: Tables, watcher: string, accepted: set<string>, flush: bool, env: Env, p: string)
    requires Orders(env.order) && AllKeyed(t.files) && p in accepted && Paths.IsClean(p)
    requires SyncOutcome(t, watcher, accepted, flush, env).1.Ok?
    ensures p in TrackedPaths(SyncOutcome(t, watcher, accepted, flush, env).0.files, watcher)
  {
    var after := SyncOutcome(t, watcher, accepted, flush, env).0.files;
    SyncLeaves(t, watcher, accepted, flush, env);
    TrackedMember(t.files, watcher, p);
    TrackedMember(after, watcher, p);
    if p in TrackedPaths(t.files, watcher) {
      var f :| f in t.files && f.watcherName == watcher && FullPath(f) == p;
      assert f in after;
    } else {
      CleanRowStays(t.files, watcher, accepted, flush, env, p);
    }
  }

  /** The accepted paths that are tracked after a successful run are the clean ones. */
  lemma CleanAreTracked(t: Tables, watcher: string, accepted: set<string>, flush: bool, env: Env)
    requires Orders(env.order) && AllKeyed(t.files) && SyncOutcome(t, watcher, accepted, flush, env).1.Ok?
    ensures Untracked(SyncOutcome(t, watcher, accepted, flush, env).0.files, watcher, accepted)
            == set p | p in accepted && !Paths.IsClean(p)
  {
    var after := SyncOutcome(t, watcher, accepted, flush, env).0.files;
    forall p | p in accepted ensures p in TrackedPaths(after, watcher) <==> Paths.IsClean(p) {
      if Paths.IsClean(p) {
        CleanGetsTracked(t, watcher, accepted, flush, env, p);
      } else {
        UncleanStaysUntracked(t, watcher, accepted, flush, env, p);
      }
    }
  }

  /**
    Exactly when repeating a sync is harmless: the second run adds the accepted paths that are not
    clean, all of them and nothing else, so it adds nothing if and only if every path the walk yields is clean.
   */
  lemma IdempotentIffClean(t: Tables, watcher: string, accepted: set<string>, flush: bool, env: Env, flush': bool,
                           env': Env)
    requires Orders(env.order) && Orders(env'.order) && AllKeyed(t.files)
    ensures var (t', r) := SyncOutcome(t, watcher, accepted, flush, env);
            var (t2, r2) := SyncOutcome(t', watcher, accepted, flush', env');
            r.Ok? && r2.Ok? ==>
              && r2.value.addedFiles == (set p | p in accepted && !Paths.IsClean(p))
              && (r2.value.addedFiles == {} <==> AllClean(accepted))
  {
    var (t', r) := SyncOutcome(t, watcher, accepted, flush, env);
    if r.Ok? {
      CleanAreTracked(t, watcher, accepted, flush, env);
      Reported(t', watcher, accepted, flush', env');
      NoneUnclean(accepted);
    }
  }

  lemma NoneUnclean(paths: set<string>)
    ensures (set p | p in paths && !Paths.IsClean(p)) == {} <==> AllClean(paths)
  {
    var unclean := set p | p in paths && !Paths.IsClean(p);
    assert unclean == {} ==> forall p :: p in paths ==> p !in unclean;
  }

  // ---------------------------------------------------------------- the report

  lemma VanishedIsGone(files: seq<File>, watcher: string, accepted: set<string>)
    ensures Elements(Vanished(files, watcher, accepted)) == TrackedPaths(files, watcher) - accepted
  {
    var rows := Select(files, FileWatcher, {watcher});
    forall p ensures p in Vanished(files, watcher, accepted) <==> p in TrackedPaths(files, watcher) - accepted {
      StaleMember(rows, accepted, p);
      TrackedMember(files, watcher, p);
    }
  }

  /** The added and removed files a successful run reports are the change it made to the tracked paths. */
  lemma ReportIsDifference(t: Tables, watcher: string, accepted: set<string>, flush: bool, env: Env)
    requires Orders(env.order) && AllKeyed(t.files) && AllClean(accepted)
    ensures var (t', r) := SyncOutcome(t, watcher, accepted, flush, env);
            var before, after := TrackedPaths(t.files, watcher), TrackedPaths(t'.files, watcher);
            r.Ok? ==>
              && after == accepted && r.value.addedFiles == after - before
              && Elements(r.value.removedFiles) == before - after
  {
    var (t', r) := SyncOutcome(t, watcher, accepted, flush, env);
    if r.Ok? {
      SyncExact(t, watcher, accepted, flush, env);
      AddedRows(t.files, watcher, accepted, flush, env);
      TracksAccepted(t.files, watcher, accepted, Additions(t.files, watcher, accepted, flush, env));
      VanishedIsGone(t.files, watcher, accepted);
    }
  }

  // ---------------------------------------------------------------- conservation

  lemma {:induction false} SurvivingCount(files: seq<File>, watcher: string, accepted: set<string>)
    ensures |Surviving(files, watcher, accepted)| + |Stale(Select(files, FileWatcher, {watcher}), accepted)| == |files|
  {
    if files != [] {
      SurvivingCount(files[1..], watcher, accepted);
      var rest := Select(files[1..], FileWatcher, {watcher});
      if files[0].watcherName == watcher {
        StaleCons(files[0], rest, accepted);
      }
    }
  }

  lemma {:induction false} StaleCons(f: File, rows: seq<File>, accepted: set<string>)
    ensures |Stale([f] + rows, accepted)| == |Stale(rows, accepted)| + if FullPath(f) in accepted then 0 else 1
  {
    if rows == [] {
      assert [f] + rows == [f] && [f][..0] == [];
    } else {
      var front := rows[..|rows| - 1];
      var all := [f] + rows;
      assert all[..|all| - 1] == [f] + front && all[|all| - 1] == rows[|rows| - 1];
      StaleCons(f, front, accepted);
    }
  }

  lemma Int32Exact(n: nat)
    ensures ToInt32(n) == n <==> n < 0x8000_0000
  {
  }

  /** What a successful run reports. */
  lemma Reported(t: Tables, watcher: string, accepted: set<string>, flush: bool, env: Env)
    ensures var (t', r) := SyncOutcome(t, watcher, accepted, flush, env);
            var added, removed := Untracked(t.files, watcher, accepted), Vanished(t.files, watcher, accepted);
            r.Ok? ==> r.value == SyncResult(ToInt32(|added|), ToInt32(|removed|), added, removed)
  {
  }

  /**
    Rows after = rows before + added - removed, duplicates in the starting table included, exactly when
    no added path has the stored key of a vanished one (clean paths never do); each reported count is the
    real one exactly when it is below 2^31.
   */
  lemma Conservation(t: Tables, watcher: string, accepted: set<string>, flush: bool, env: Env)
    requires Orders(env.order) && AllKeyed(t.files)
    ensures var (t', r) := SyncOutcome(t, watcher, accepted, flush, env);
            r.Ok? ==>
              && (|t'.files| == |t.files| + |r.value.addedFiles| - |r.value.removedFiles| <==>
                  !Clash(t.files, watcher, accepted))
              && (r.value.addedCount == |r.value.addedFiles| <==> |r.value.addedFiles| < 0x8000_0000)
              && (r.value.removedCount == |r.value.removedFiles| <==> |r.value.removedFiles| < 0x8000_0000)
  {
    var (t', r) := SyncOutcome(t, watcher, accepted, flush, env);
    if r.Ok? {
      var untracked := Untracked(t.files, watcher, accepted);
      assert Lists(env.order(untracked), untracked);
      ListLength(env.order(untracked), untracked);
      SyncLeaves(t, watcher, accepted, flush, env);
      AdditionsSpared(t.files, watcher, accepted, flush, env);
      SurvivingCount(t.files, watcher, accepted);
      Reported(t, watcher, accepted, flush, env);
      Int32Exact(|r.value.addedFiles|);
      Int32Exact(|r.value.removedFiles|);
    }
  }

  // ---------------------------------------------------------------- recovery

  /**
    If the additions are saved but the removal fails, a retry over the same disk reaches the very
    table an uninterrupted run would have reached, ids and flags included.
   */
  lemma PartialFailureConverges(t: Tables, watcher: string, accepted: set<string>, flush: bool, env: Env, flush': bool,
                                env': Env)
    requires Orders(env.order) && Orders(env'.order) && AllKeyed(t.files) && AllClean(accepted)
    requires env.dialOk && env.listOk && !env.removeOk
    ensures var (t1, r1) := SyncOutcome(t, watcher, accepted, flush, env);
            var (t2, r2) := SyncOutcome(t1, watcher, accepted, flush', env');
            var (whole, r) := SyncOutcome(t, watcher, accepted, flush, env.(removeOk := true));
            r.Ok? && r1.Err? && r2.Ok? ==> t2 == whole
  {
    var (t1, r1) := SyncOutcome(t, watcher, accepted, flush, env);
    var (t2, r2) := SyncOutcome(t1, watcher, accepted, flush', env');
    var (whole, r) := SyncOutcome(t, watcher, accepted, flush, env.(removeOk := true));
    if r.Ok? && r1.Err? && r2.Ok? {
      var newRows := Additions(t.files, watcher, accepted, flush, env);
      SyncExact(t, watcher, accepted, flush, env.(removeOk := true));
      AddedRows(t.files, watcher, accepted, flush, env);
      AddedOnly(t, watcher, accepted, flush, env);
      SyncExact(t1, watcher, accepted, flush', env');
      RetrySynced(t.files, watcher, accepted, newRows, flush', env');
    }
  }

  /** The retry drops what the first attempt should have dropped and keeps its additions. */
  lemma RetrySynced(files: seq<File>, watcher: string, accepted: set<string>, newRows: seq<File>, flush: bool, env: Env)
    requires Orders(env.order) && StandsFor(newRows, watcher, Untracked(files, watcher, accepted))
    ensures Synced(files + newRows, watcher, accepted, flush, env) == Surviving(files, watcher, accepted) + newRows
  {
    RetryAddsNothing(files, watcher, accepted, newRows);
    EmptyOrder(env);
    SurvivingConcat(files, newRows, watcher, accepted);
    SurvivingAll(newRows, watcher, accepted);
  }

  /** When the removal is what failed, the table holds the old rows and the additions. */
  lemma AddedOnly(t: Tables, watcher: string, accepted: set<string>, flush: bool, env: Env)
    requires Orders(env.order) && env.dialOk && env.listOk && !env.removeOk
    ensures var (t1, r1) := SyncOutcome(t, watcher, accepted, flush, env);
            var (whole, r) := SyncOutcome(t, watcher, accepted, flush, env.(removeOk := true));
            r.Ok? && r1.Err? ==> t1 == t.(files := t.files + Additions(t.files, watcher, accepted, flush, env))
  {
    var added := Untracked(t.files, watcher, accepted);
    if added == {} {
      EmptyOrder(env);
      assert t.files + Additions(t.files, watcher, accepted, flush, env) == t.files;
    }
  }

  lemma RetryAddsNothing(files: seq<File>, watcher: string, accepted: set<string>, newRows: seq<File>)
    requires StandsFor(newRows, watcher, Untracked(files, watcher, accepted))
    ensures Untracked(files + newRows, watcher, accepted) == {}
  {
    forall p | p in accepted ensures p in TrackedPaths(files + newRows, watcher) {
      TrackedMember(files + newRows, watcher, p);
      TrackedMember(files, watcher, p);
      if p in TrackedPaths(files, watcher) {
        var f :| f in files && f.watcherName == watcher && FullPath(f) == p;
        assert f in files + newRows;
      } else {
        assert p in Untracked(files, watcher, accepted);
        var f :| f in newRows && FullPath(f) == p;
        assert f in files + newRows;
      }
    }
  }

  lemma {:induction false} SurvivingConcat(a: seq<File>, b: seq<File>, watcher: string, accepted: set<string>)
    ensures Surviving(a + b, watcher, accepted) == Surviving(a, watcher, accepted) + Surviving(b, watcher, accepted)
  {
    if a == [] {
      assert a + b == b;
    } else {
      assert (a + b)[1..] == a[1..] + b;
      SurvivingConcat(a[1..], b, watcher, accepted);
    }
  }
}
