/**
  A sync told in rows: which rows stay, what is in the new ones, and when it succeeds.
 */
module SyncRows {
  import opened GoSet
  import opened Schema
  import opened Sync
  import opened SyncLaws
  import Paths

  /** A row that a sync of this watcher may insert: for a seen path without a row, above every id in use. */
  ghost predicate NewRowFor(f: File, files: seq<File>, watcher: string, accepted: set<string>, flush: bool, now: Time) {
    && f.watcherName == watcher && Paths.Join(f.filePath, f.fileName) in accepted
    && !HasRow(files, watcher, Paths.Join(f.filePath, f.fileName))
    && f.flushed == flush && f.detectedAt == now && forall g :: g in files ==> g.id < f.id
  }

  lemma AdditionIsNew(files: seq<File>, watcher: string, accepted: set<string>, flush: bool, env: Env, f: File)
    requires Orders(env.order) && AllClean(accepted) && f in Additions(files, watcher, accepted, flush, env)
    ensures NewRowFor(f, files, watcher, accepted, flush, env.now)
  {
    var untracked, newRows := Untracked(files, watcher, accepted), Additions(files, watcher, accepted, flush, env);
    var order := env.order(untracked);
    var i :| 0 <= i < |newRows| && newRows[i] == f;
    assert Lists(order, untracked) && order[i] in Elements(order);
    FreshRowKeyed(watcher, order[i], flush, env.now, f.id);
    TrackedMember(files, watcher, order[i]);
    forall g | g in files ensures g.id < f.id {
      var k :| 0 <= k < |files| && files[k] == g;
      assert FileId(files[k]) <= MaxId(files, FileId);
    }
  }

  lemma SyncedRows(files: seq<File>, watcher: string, accepted: set<string>, flush: bool, env: Env, f: File)
    requires Orders(env.order) && AllClean(accepted)
    ensures f in files ==>
              (f in Synced(files, watcher, accepted, flush, env) <==>
               f.watcherName != watcher || Paths.Join(f.filePath, f.fileName) in accepted)
    ensures f in Synced(files, watcher, accepted, flush, env) && f !in files ==>
              NewRowFor(f, files, watcher, accepted, flush, env.now)
  {
    if f in Additions(files, watcher, accepted, flush, env) {
      AdditionIsNew(files, watcher, accepted, flush, env, f);
    }
  }

  lemma SyncedTracks(files: seq<File>, watcher: string, accepted: set<string>, flush: bool, env: Env, p: string)
    requires Orders(env.order) && AllClean(accepted) && p in accepted
    ensures HasRow(Synced(files, watcher, accepted, flush, env), watcher, p)
  {
    AddedRows(files, watcher, accepted, flush, env);
    TracksAccepted(files, watcher, accepted, Additions(files, watcher, accepted, flush, env));
    TrackedMember(Synced(files, watcher, accepted, flush, env), watcher, p);
  }

  /**
    After a success, a row that was there is there still exactly when it belongs to another watcher or its
    path was seen; every other row is new and right; and every path seen has a row.
   */
  lemma SyncByRows(t: Tables, watcher: string, accepted: set<string>, flush: bool, env: Env)
    requires Orders(env.order) && AllKeyed(t.files) && AllClean(accepted)
    requires SyncOutcome(t, watcher, accepted, flush, env).1.Ok?
    ensures var t' := SyncOutcome(t, watcher, accepted, flush, env).0;
            && t'.machines == t.machines && t'.watchers == t.watchers && t'.redirections == t.redirections
            && (forall f :: f in t.files ==>
                  (f in t'.files <==> f.watcherName != watcher || Paths.Join(f.filePath, f.fileName) in accepted))
            && (forall f :: f in t'.files && f !in t.files ==> NewRowFor(f, t.files, watcher, accepted, flush, env.now))
            && (forall p :: p in accepted ==> HasRow(t'.files, watcher, p))
  {
    SyncExact(t, watcher, accepted, flush, env);
    forall f {
      SyncedRows(t.files, watcher, accepted, flush, env, f);
    }
    forall p | p in accepted {
      SyncedTracks(t.files, watcher, accepted, flush, env, p);
    }
  }

  /** After a failure every old row is there, and any other row is one that a success would have inserted too. */
  lemma FailedSyncByRows(t: Tables, watcher: string, accepted: set<string>, flush: bool, env: Env)
    requires Orders(env.order) && AllClean(accepted) && SyncOutcome(t, watcher, accepted, flush, env).1.Err?
    ensures var t' := SyncOutcome(t, watcher, accepted, flush, env).0;
            && t'.machines == t.machines && t'.watchers == t.watchers && t'.redirections == t.redirections
            && (forall f :: f in t.files ==> f in t'.files)
            && (forall f :: f in t'.files && f !in t.files ==> NewRowFor(f, t.files, watcher, accepted, flush, env.now))
  {
    var newRows := Additions(t.files, watcher, accepted, flush, env);
    SyncShape(t, watcher, accepted, flush, env);
    forall f | f in newRows ensures NewRowFor(f, t.files, watcher, accepted, flush, env.now) {
      AdditionIsNew(t.files, watcher, accepted, flush, env, f);
    }
  }

  /** Some row of the watcher is at a path that was not seen. */
  ghost predicate HasGoneRow(files: seq<File>, watcher: string, accepted: set<string>) {
    exists f :: f in files && f.watcherName == watcher && Paths.Join(f.filePath, f.fileName) !in accepted
  }

  /** Exactly when a sync succeeds: both connections, and each write unless it has nothing to do. */
  lemma SyncSucceedsIff(t: Tables, watcher: string, accepted: set<string>, flush: bool, env: Env)
    requires Orders(env.order)
    ensures SyncOutcome(t, watcher, accepted, flush, env).1.Ok? <==>
            && env.dialOk && env.listOk
            && ((forall p :: p in accepted ==> HasRow(t.files, watcher, p))
                || (env.addOk && exists w :: w in t.watchers && w.name == watcher))
            && (!HasGoneRow(t.files, watcher, accepted) || env.removeOk)
  {
    var untracked, vanished := Untracked(t.files, watcher, accepted), Vanished(t.files, watcher, accepted);
    assert untracked == {} <==> forall p :: p in accepted ==> HasRow(t.files, watcher, p) by {
      NothingUntracked(t.files, watcher, accepted);
    }
    assert vanished == [] <==> !HasGoneRow(t.files, watcher, accepted) by {
      NothingGone(t.files, watcher, accepted);
    }
  }

  lemma NothingUntracked(files: seq<File>, watcher: string, accepted: set<string>)
    ensures Untracked(files, watcher, accepted) == {} <==> forall p :: p in accepted ==> HasRow(files, watcher, p)
  {
    forall p ensures p in Untracked(files, watcher, accepted) <==> p in accepted && !HasRow(files, watcher, p) {
      TrackedMember(files, watcher, p);
    }
  }

  lemma NothingGone(files: seq<File>, watcher: string, accepted: set<string>)
    ensures Vanished(files, watcher, accepted) == [] <==> !HasGoneRow(files, watcher, accepted)
  {
    var rows, vanished := Select(files, FileWatcher, {watcher}), Vanished(files, watcher, accepted);
    if vanished != [] {
      StaleMember(rows, accepted, vanished[0]);
      assert vanished[0] in vanished;
    }
    if f :| f in files && f.watcherName == watcher && Paths.Join(f.filePath, f.fileName) !in accepted {
      assert f in rows;
      StaleMember(rows, accepted, FullPath(f));
    }
  }

  /** A count is reported as the 32-bit number it is congruent to. */
  lemma Int32Wraps(n: nat)
    ensures -0x8000_0000 <= ToInt32(n) < 0x8000_0000 && (n - ToInt32(n)) % 0x1_0000_0000 == 0
  {
  }
}
