/**
  What the lock is for: jobs of one watcher that all list the table before any of them adds, such as a sync and
  the lock-free job of the watcher's creation. Each walks the disk on its own, writes may fail, and the steps
  come in any order.
 */
module Overlap {
  import opened GoSet
  import opened Schema
  import opened Database
  import opened Sync
  import opened SyncLaws
  import opened Protocol
  import opened ProtocolLaws
  import opened OneFileServer
  import Paths

  // ---------------------------------------------------------------- rows written by several jobs

  /** The rows written for these paths, in order. */
  ghost predicate Wrote(rows: seq<File>, watcher: string, paths: seq<string>) {
    |rows| == |paths| && forall i :: 0 <= i < |rows| ==> KeyOf(rows[i]) == PathKey(watcher, paths[i])
  }

  /** Clean paths that no row of the watcher stands for. */
  ghost predicate NewTo(files: seq<File>, watcher: string, paths: seq<string>) {
    forall p :: p in paths ==> Paths.IsClean(p) && p !in TrackedPaths(files, watcher)
  }

  lemma WroteConcat(a: seq<File>, b: seq<File>, watcher: string, one: seq<string>, two: seq<string>)
    requires Wrote(a, watcher, one) && Wrote(b, watcher, two)
    ensures Wrote(a + b, watcher, one + two)
  {
  }

  lemma WroteReads(rows: seq<File>, watcher: string, paths: seq<string>, i: nat)
    requires Wrote(rows, watcher, paths) && i < |rows| && Paths.IsClean(paths[i])
    ensures rows[i].watcherName == watcher && FullPath(rows[i]) == paths[i]
  {
    Paths.PathRoundTrip(paths[i]);
  }

  /** Rows written on top of a table leave duplicates exactly when a path was written twice. */
  lemma WrittenOnce(kept: seq<File>, rows: seq<File>, watcher: string, paths: seq<string>)
    requires FilesOk(kept) && Wrote(rows, watcher, paths) && NewTo(kept, watcher, paths)
    ensures OneRowPerPath(kept + rows) <==> NoRepeats(paths)
  {
    var all := kept + rows;
    forall i | 0 <= i < |rows|
      ensures all[|kept| + i] == rows[i] && rows[i].watcherName == watcher && FullPath(rows[i]) == paths[i]
    {
      assert paths[i] in paths;
      WroteReads(rows, watcher, paths, i);
    }
    if NoRepeats(paths) {
      FilesOkOneRow(kept);
      forall i, j | 0 <= i < j < |all| && all[i].watcherName == all[j].watcherName
        ensures FullPath(all[i]) != FullPath(all[j])
      {
        if i < |kept| <= j {
          TrackedMember(kept, watcher, FullPath(kept[i]));
          assert kept[i] in kept && paths[j - |kept|] in paths;
        }
      }
    } else {
      var i, j :| 0 <= i < j < |paths| && paths[i] == paths[j];
      assert FullPath(all[|kept| + i]) == FullPath(all[|kept| + j]);
    }
  }

  /** No job deletes a row written for a path that was untracked when it listed. */
  lemma WroteSpared(files: seq<File>, watcher: string, accepted: set<string>, rows: seq<File>, paths: seq<string>)
    requires AllKeyed(files) && Wrote(rows, watcher, paths) && NewTo(files, watcher, paths)
    ensures Reject(rows, KeyOf, PathKeys(watcher, Vanished(files, watcher, accepted))) == rows
  {
    var vanished := Vanished(files, watcher, accepted);
    VanishedIsGone(files, watcher, accepted);
    StaleClean(files, watcher, accepted);
    forall f | f in rows ensures KeyOf(f) !in PathKeys(watcher, vanished) {
      var i :| 0 <= i < |rows| && rows[i] == f;
      forall v | v in vanished ensures PathKey(watcher, v) != PathKey(watcher, paths[i]) {
        assert v in Elements(vanished) && paths[i] in paths;
        Paths.PathKeyInjective(v, paths[i]);
      }
    }
    RejectNothing(rows, PathKeys(watcher, vanished));
  }

  /** The listed rows that the walks of these jobs saw. */
  ghost predicate SeenBy(kept: seq<File>, files: seq<File>, watcher: string, jobs: map<int, set<string>>,
                         gone: set<int>)
    requires gone <= jobs.Keys
  {
    && FilesOk(kept) && (gone == {} ==> kept == files)
    && forall f :: f in kept <==> f in files && forall x :: x in gone ==> !Gone(f, watcher, jobs[x])
  }

  /** Job `x` removes what its walk missed. */
  lemma RemovedBy(kept: seq<File>, files: seq<File>, watcher: string, jobs: map<int, set<string>>, gone: set<int>,
                  x: int)
    requires FilesOk(files) && gone <= jobs.Keys && x in jobs && SeenBy(kept, files, watcher, jobs, gone)
    ensures SeenBy(Reject(kept, KeyOf, PathKeys(watcher, Vanished(files, watcher, jobs[x]))), files, watcher, jobs,
                   gone + {x})
  {
    var dead := PathKeys(watcher, Vanished(files, watcher, jobs[x]));
    forall f | f in files ensures KeyOf(f) in dead <==> Gone(f, watcher, jobs[x]) {
      DeadExactlyGone(files, watcher, jobs[x], f);
    }
    RejectDistinct(kept, KeyOf, dead, KeyOf);
  }

  // ---------------------------------------------------------------- steps of the jobs

  /** A step of one of the jobs. Each job has a disk of its own: what its walk accepts. */
  ghost predicate JobMove(e: Event, jobs: map<int, set<string>>) {
    match e
    case List(c, _) => c in jobs
    case Walk(c, accepted, _) => c in jobs && accepted == jobs[c]
    case Add(c, _, _) => c in jobs
    case Remove(c, _) => c in jobs
    case _ => false
  }

  ghost predicate JobMoves(es: seq<Event>, jobs: map<int, set<string>>) {
    forall i :: 0 <= i < |es| ==> JobMove(es[i], jobs)
  }

  /** All jobs list before any of them adds. */
  ghost predicate ListsFirst(es: seq<Event>) {
    forall i, j :: 0 <= i < j < |es| && es[j].List? ==> !es[i].Add?
  }

  /** The job whose addition goes through in this step, if any. */
  function Adding(s: State, e: Event): set<int> {
    if e.Add? && e.ok && e.call in s.calls && s.calls[e.call].Walked? then {e.call} else {}
  }

  function Removing(s: State, e: Event): set<int> {
    if e.Remove? && e.ok && e.call in s.calls && s.calls[e.call].Saved? then {e.call} else {}
  }

  /** The jobs whose addition goes through somewhere in the run. */
  ghost function AddedIn(s: State, es: seq<Event>): set<int> {
    if es == [] then {} else AddedIn(s, es[..|es| - 1]) + Adding(Play(s, es[..|es| - 1]), es[|es| - 1])
  }

  ghost function RemovedIn(s: State, es: seq<Event>): set<int> {
    if es == [] then {} else RemovedIn(s, es[..|es| - 1]) + Removing(Play(s, es[..|es| - 1]), es[|es| - 1])
  }

  ghost function ListedCall(files: seq<File>, name: string): Call {
    Listed(name, TrackedPaths(files, name), Select(files, FileWatcher, {name}))
  }

  /** Where a job stands that lists this table, whenever it does. */
  ghost predicate Phase(k: Call, files: seq<File>, name: string, accepted: set<string>) {
    || k == Ready(name) || k == ListedCall(files, name) || k == Leaving(name)
    || (k.Walked? && k.name == name && k.vanished == Vanished(files, name, accepted)
        && Lists(k.untracked, Untracked(files, name, accepted)))
    || k == Saved(name, Vanished(files, name, accepted))
  }

  predicate Early(k: Call) {
    k.Ready? || k.Listed? || k.Walked?
  }

  ghost predicate Phases(s: State, files: seq<File>, name: string, jobs: map<int, set<string>>) {
    forall x :: x in jobs ==> x in s.calls && Phase(s.calls[x], files, name, jobs[x])
  }

  /** What each event of a job does, for a listing of this very table. */
  lemma ListMove(s: State, c: int, ok: bool, name: string)
    requires c in s.calls && s.calls[c] == Ready(name)
    ensures Next(s, List(c, ok)) == SetCall(s, c, if ok then ListedCall(s.db.files, name) else Leaving(name))
  {
  }

  lemma WalkMove(s: State, c: int, files: seq<File>, name: string, accepted: set<string>, order: seq<string>)
    requires c in s.calls && s.calls[c] == ListedCall(files, name)
    ensures var w := Walked(name, order, Vanished(files, name, accepted));
            Next(s, Walk(c, accepted, order)) ==
              if Lists(order, Untracked(files, name, accepted)) then SetCall(s, c, w) else s
  {
  }

  /** The rows an addition writes: one per path, whatever their ids. */
  lemma AddMove(s: State, c: int, now: Time, name: string, paths: seq<string>, vanished: seq<string>)
    returns (rows: seq<File>)
    requires c in s.calls && s.calls[c] == Walked(name, paths, vanished) && Has(s.db.watchers, WatcherName, name)
    ensures Wrote(rows, name, paths)
    ensures Next(s, Add(c, true, now)) == SetCall(s, c, Saved(name, vanished)).(db := s.db.(files := s.db.files + rows))
  {
    rows := FreshRows(s.db.files, name, paths, c in s.free, now);
    if paths == [] {
      assert s.db.files + rows == s.db.files;
    } else {
      AddPaths(s, c, name, paths, vanished, true, now);
    }
  }

  lemma AddFails(s: State, c: int, now: Time, name: string, paths: seq<string>, vanished: seq<string>)
    requires c in s.calls && s.calls[c] == Walked(name, paths, vanished) && Has(s.db.watchers, WatcherName, name)
    ensures Next(s, Add(c, false, now)) == SetCall(s, c, if paths == [] then Saved(name, vanished) else Leaving(name))
  {
    if paths != [] {
      AddPaths(s, c, name, paths, vanished, false, now);
    }
  }

  lemma RemoveMove(s: State, c: int, ok: bool, name: string, vanished: seq<string>)
    requires c in s.calls && s.calls[c] == Saved(name, vanished)
    ensures var files := if ok then Reject(s.db.files, KeyOf, PathKeys(name, vanished)) else s.db.files;
            Next(s, Remove(c, ok)) == SetCall(s, c, Leaving(name)).(db := s.db.(files := files))
  {
    RemoveShape(s.db, name, vanished);
  }

  lemma AddIdle(s: State, c: int, ok: bool, now: Time)
    requires c in s.calls && !s.calls[c].Walked?
    ensures Next(s, Add(c, ok, now)) == s && Adding(s, Add(c, ok, now)) == {}
  {
  }

  // ---------------------------------------------------------------- any order of steps

  /** A table made of listed rows and of rows for these paths, and who has written and removed so far. */
  datatype Trail = Trail(kept: seq<File>, rows: seq<File>, paths: seq<string>, added: set<int>, gone: set<int>)

  /** No path is new to two of these jobs. */
  ghost predicate Apart(files: seq<File>, name: string, jobs: map<int, set<string>>, some: set<int>) {
    forall x, y, p :: (x in some && y in some && x in jobs && y in jobs && p in Untracked(files, name, jobs[x])
                       && p in Untracked(files, name, jobs[y])) ==> x == y
  }

  /** The paths written are the untracked paths of the jobs that added, twice those of two of them. */
  ghost predicate WrittenBy(t: Trail, files: seq<File>, name: string, jobs: map<int, set<string>>) {
    && (forall p :: p in t.paths <==> exists x :: x in t.added && x in jobs && p in Untracked(files, name, jobs[x]))
    && (NoRepeats(t.paths) <==> Apart(files, name, jobs, t.added))
  }

  ghost predicate TrailOk(t: Trail, files: seq<File>, name: string, jobs: map<int, set<string>>) {
    && t.added <= jobs.Keys && t.gone <= jobs.Keys
    && SeenBy(t.kept, files, name, jobs, t.gone) && Wrote(t.rows, name, t.paths) && WrittenBy(t, files, name, jobs)
  }

  /** Where the run stands: every job in its phase, the table as the trail says. */
  ghost predicate Stands(s: State, t: Trail, files: seq<File>, name: string, jobs: map<int, set<string>>) {
    && Phases(s, files, name, jobs) && Has(s.db.watchers, WatcherName, name)
    && s.db.files == t.kept + t.rows && TrailOk(t, files, name, jobs)
    && (forall x :: x in jobs && Early(s.calls[x]) ==> x !in t.added)
  }

  ghost predicate AllCleanJobs(jobs: map<int, set<string>>) {
    forall x :: x in jobs ==> AllClean(jobs[x])
  }

  lemma PathsNew(t: Trail, files: seq<File>, name: string, jobs: map<int, set<string>>)
    requires AllCleanJobs(jobs) && WrittenBy(t, files, name, jobs)
    ensures NewTo(files, name, t.paths)
  {
  }

  /** One more job has added its untracked paths. */
  lemma WrittenByOneMore(t: Trail, files: seq<File>, name: string, jobs: map<int, set<string>>, x: int,
                         order: seq<string>, rows: seq<File>)
    requires WrittenBy(t, files, name, jobs) && x in jobs && x !in t.added
    requires Lists(order, Untracked(files, name, jobs[x]))
    ensures WrittenBy(t.(rows := t.rows + rows, paths := t.paths + order, added := t.added + {x}), files, name, jobs)
  {
    var u, paths, added := Untracked(files, name, jobs[x]), t.paths + order, t.added + {x};
    forall p ensures p in order <==> p in u {
      assert p in order <==> p in Elements(order);
    }
    NoRepeatsConcat(t.paths, order);
    forall p ensures p in paths <==> exists y :: y in added && y in jobs && p in Untracked(files, name, jobs[y]) {
      if y :| y in added && y in jobs && p in Untracked(files, name, jobs[y]) {
        assert y in t.added || y == x;
      }
    }
    ApartOneMore(files, name, jobs, t.added, x, t.paths);
  }

  lemma NoRepeatsConcat<T>(a: seq<T>, b: seq<T>)
    requires NoRepeats(b)
    ensures NoRepeats(a + b) <==> NoRepeats(a) && forall x :: x in a ==> x !in b
  {
    var all := a + b;
    if NoRepeats(all) {
      forall i, j | 0 <= i < j < |a| ensures a[i] != a[j] {
        assert all[i] == a[i] && all[j] == a[j];
      }
      forall x | x in a ensures x !in b {
        var i :| 0 <= i < |a| && a[i] == x;
        forall j | 0 <= j < |b| ensures b[j] != x {
          assert all[i] == x && all[|a| + j] == b[j];
        }
      }
    } else {
      var i, j :| 0 <= i < j < |all| && all[i] == all[j];
      if i < |a| <= j {
        assert a[i] in a && b[j - |a|] in b;
      }
    }
  }

  lemma ApartOneMore(files: seq<File>, name: string, jobs: map<int, set<string>>, some: set<int>, x: int,
                     paths: seq<string>)
    requires x in jobs && x !in some
    requires forall p :: p in paths <==> exists y :: y in some && y in jobs && p in Untracked(files, name, jobs[y])
    ensures Apart(files, name, jobs, some + {x}) <==>
            Apart(files, name, jobs, some) && forall p :: p in paths ==> p !in Untracked(files, name, jobs[x])
  {
    var u := Untracked(files, name, jobs[x]);
    if Apart(files, name, jobs, some + {x}) {
      forall p | p in paths ensures p !in u {
        var y :| y in some && y in jobs && p in Untracked(files, name, jobs[y]);
      }
    }
  }

  /** Job `c` moves on; the table does not change. */
  lemma MoveStands(s: State, t: Trail, files: seq<File>, name: string, jobs: map<int, set<string>>, c: int, k: Call)
    requires Stands(s, t, files, name, jobs) && c in jobs
    requires Phase(k, files, name, jobs[c]) && (Early(k) ==> Early(s.calls[c]))
    ensures Stands(SetCall(s, c, k), t, files, name, jobs)
  {
  }

  lemma ListStands(s: State, e: Event, t: Trail, files: seq<File>, name: string, jobs: map<int, set<string>>)
    requires Stands(s, t, files, name, jobs) && e.List? && e.call in jobs && s.db.files == files
    ensures Stands(Next(s, e), t, files, name, jobs)
  {
    if s.calls[e.call] == Ready(name) {
      ListMove(s, e.call, e.ok, name);
      MoveStands(s, t, files, name, jobs, e.call, if e.ok then ListedCall(files, name) else Leaving(name));
    }
  }

  lemma WalkStands(s: State, e: Event, t: Trail, files: seq<File>, name: string, jobs: map<int, set<string>>)
    requires Stands(s, t, files, name, jobs) && e.Walk? && e.call in jobs && e.accepted == jobs[e.call]
    ensures Stands(Next(s, e), t, files, name, jobs)
  {
    if s.calls[e.call] == ListedCall(files, name) {
      WalkMove(s, e.call, files, name, e.accepted, e.order);
      if Lists(e.order, Untracked(files, name, e.accepted)) {
        MoveStands(s, t, files, name, jobs, e.call, Walked(name, e.order, Vanished(files, name, e.accepted)));
      }
    }
  }

  /** One more job has written its rows. */
  lemma AddTrail(t: Trail, files: seq<File>, name: string, jobs: map<int, set<string>>, c: int, order: seq<string>,
                 rows: seq<File>)
    returns (t': Trail)
    requires TrailOk(t, files, name, jobs) && c in jobs && c !in t.added
    requires Lists(order, Untracked(files, name, jobs[c])) && Wrote(rows, name, order)
    ensures TrailOk(t', files, name, jobs) && t'.added == t.added + {c} && t'.gone == t.gone
    ensures t'.kept + t'.rows == t.kept + t.rows + rows
  {
    t' := t.(rows := t.rows + rows, paths := t.paths + order, added := t.added + {c});
    WroteConcat(t.rows, rows, name, t.paths, order);
    WrittenByOneMore(t, files, name, jobs, c, order, rows);
  }

  /** Job `c` moves on past its addition, and the table with it. */
  lemma TableStands(s: State, t: Trail, files: seq<File>, name: string, jobs: map<int, set<string>>,
                    c: int, k: Call, table: seq<File>, t': Trail)
    requires Stands(s, t, files, name, jobs) && c in jobs && Phase(k, files, name, jobs[c]) && !Early(k)
    requires TrailOk(t', files, name, jobs) && table == t'.kept + t'.rows && t'.added <= t.added + {c}
    ensures Stands(SetCall(s, c, k).(db := s.db.(files := table)), t', files, name, jobs)
  {
  }

  /** The addition of job `c` goes through. */
  lemma AddGoes(s: State, c: int, now: Time, t: Trail, files: seq<File>, name: string, jobs: map<int, set<string>>)
    returns (t': Trail)
    requires Stands(s, t, files, name, jobs) && c in jobs && s.calls[c].Walked?
    ensures Stands(Next(s, Add(c, true, now)), t', files, name, jobs)
    ensures t'.gone == t.gone && t'.added == t.added + {c} && Adding(s, Add(c, true, now)) == {c}
  {
    var k := s.calls[c];
    var rows := AddMove(s, c, now, name, k.untracked, k.vanished);
    t' := AddTrail(t, files, name, jobs, c, k.untracked, rows);
    TableStands(s, t, files, name, jobs, c, Saved(name, k.vanished), s.db.files + rows, t');
  }

  /** The addition of job `c` is refused, or has nothing to write. */
  lemma AddStops(s: State, c: int, now: Time, t: Trail, files: seq<File>, name: string, jobs: map<int, set<string>>)
    requires Stands(s, t, files, name, jobs) && c in jobs && s.calls[c].Walked?
    ensures Stands(Next(s, Add(c, false, now)), t, files, name, jobs) && Adding(s, Add(c, false, now)) == {}
  {
    var k := s.calls[c];
    AddFails(s, c, now, name, k.untracked, k.vanished);
    MoveStands(s, t, files, name, jobs, c, if k.untracked == [] then Saved(name, k.vanished) else Leaving(name));
  }

  lemma AddStands(s: State, c: int, ok: bool, now: Time, t: Trail, files: seq<File>, name: string,
                  jobs: map<int, set<string>>)
    returns (t': Trail)
    requires Stands(s, t, files, name, jobs) && c in jobs
    ensures Stands(Next(s, Add(c, ok, now)), t', files, name, jobs)
    ensures t'.added == t.added + Adding(s, Add(c, ok, now)) && t'.gone == t.gone + Removing(s, Add(c, ok, now))
  {
    t' := t;
    if !s.calls[c].Walked? {
      AddIdle(s, c, ok, now);
    } else if ok {
      t' := AddGoes(s, c, now, t, files, name, jobs);
    } else {
      AddStops(s, c, now, t, files, name, jobs);
    }
  }

  /** The rows of all jobs outlive every removal. */
  lemma RemoveTrail(t: Trail, files: seq<File>, name: string, jobs: map<int, set<string>>, c: int) returns (t': Trail)
    requires TrailOk(t, files, name, jobs) && c in jobs && FilesOk(files) && AllCleanJobs(jobs)
    ensures TrailOk(t', files, name, jobs) && t'.added == t.added && t'.gone == t.gone + {c}
    ensures t'.kept + t'.rows == Reject(t.kept + t.rows, KeyOf, PathKeys(name, Vanished(files, name, jobs[c])))
  {
    var dead := PathKeys(name, Vanished(files, name, jobs[c]));
    t' := t.(kept := Reject(t.kept, KeyOf, dead), gone := t.gone + {c});
    RemovedBy(t.kept, files, name, jobs, t.gone, c);
    PathsNew(t, files, name, jobs);
    WroteSpared(files, name, jobs[c], t.rows, t.paths);
    RejectConcat(t.kept, t.rows, KeyOf, dead);
  }

  lemma RemoveGoes(s: State, c: int, ok: bool, t: Trail, files: seq<File>, name: string, jobs: map<int, set<string>>)
    returns (t': Trail)
    requires Stands(s, t, files, name, jobs) && c in jobs && s.calls[c].Saved? && FilesOk(files) && AllCleanJobs(jobs)
    ensures Stands(Next(s, Remove(c, ok)), t', files, name, jobs)
    ensures t'.added == t.added && t'.gone == if ok then t.gone + {c} else t.gone
  {
    RemoveMove(s, c, ok, name, s.calls[c].vanished);
    if ok {
      t' := RemoveTrail(t, files, name, jobs, c);
      TableStands(s, t, files, name, jobs, c, Leaving(name), t'.kept + t'.rows, t');
    } else {
      t' := t;
      MoveStands(s, t, files, name, jobs, c, Leaving(name));
    }
  }

  lemma RemoveStands(s: State, c: int, ok: bool, t: Trail, files: seq<File>, name: string, jobs: map<int, set<string>>)
    returns (t': Trail)
    requires Stands(s, t, files, name, jobs) && c in jobs && FilesOk(files) && AllCleanJobs(jobs)
    ensures Stands(Next(s, Remove(c, ok)), t', files, name, jobs)
    ensures t'.added == t.added + Adding(s, Remove(c, ok)) && t'.gone == t.gone + Removing(s, Remove(c, ok))
  {
    t' := t;
    if s.calls[c].Saved? {
      t' := RemoveGoes(s, c, ok, t, files, name, jobs);
    } else {
      NoRemoval(s, c, ok);
    }
  }

  lemma AddCounts(s: State, e: Event, t: Trail, files: seq<File>, name: string, jobs: map<int, set<string>>)
    returns (t': Trail)
    requires Stands(s, t, files, name, jobs) && e.Add? && e.call in jobs
    ensures Stands(Next(s, e), t', files, name, jobs)
    ensures t'.added == t.added + Adding(s, e) && t'.gone == t.gone + Removing(s, e)
  {
    assert e == Add(e.call, e.ok, e.now);
    t' := AddStands(s, e.call, e.ok, e.now, t, files, name, jobs);
  }

  lemma RemoveCounts(s: State, e: Event, t: Trail, files: seq<File>, name: string, jobs: map<int, set<string>>)
    returns (t': Trail)
    requires Stands(s, t, files, name, jobs) && e.Remove? && e.call in jobs && FilesOk(files) && AllCleanJobs(jobs)
    ensures Stands(Next(s, e), t', files, name, jobs)
    ensures t'.added == t.added + Adding(s, e) && t'.gone == t.gone + Removing(s, e)
  {
    assert e == Remove(e.call, e.ok);
    t' := RemoveStands(s, e.call, e.ok, t, files, name, jobs);
  }

  lemma ReadCounts(s: State, e: Event, t: Trail, files: seq<File>, name: string, jobs: map<int, set<string>>)
    returns (t': Trail)
    requires Stands(s, t, files, name, jobs) && JobMove(e, jobs) && (e.List? || e.Walk?)
    requires e.List? ==> s.db.files == files
    ensures Stands(Next(s, e), t', files, name, jobs)
    ensures t'.added == t.added + Adding(s, e) && t'.gone == t.gone + Removing(s, e)
  {
    t' := t;
    if e.List? {
      ListStands(s, e, t, files, name, jobs);
    } else {
      WalkStands(s, e, t, files, name, jobs);
    }
  }

  lemma JobStands(s: State, e: Event, t: Trail, files: seq<File>, name: string, jobs: map<int, set<string>>)
    returns (t': Trail)
    requires Stands(s, t, files, name, jobs) && JobMove(e, jobs) && FilesOk(files) && AllCleanJobs(jobs)
    requires e.List? ==> s.db.files == files
    ensures Stands(Next(s, e), t', files, name, jobs)
    ensures t'.added == t.added + Adding(s, e) && t'.gone == t.gone + Removing(s, e)
  {
    if e.Add? {
      t' := AddCounts(s, e, t, files, name, jobs);
    } else if e.Remove? {
      t' := RemoveCounts(s, e, t, files, name, jobs);
    } else {
      t' := ReadCounts(s, e, t, files, name, jobs);
    }
  }

  // ---------------------------------------------------------------- the whole run

  /** The jobs have started and none has listed. */
  ghost predicate AllReady(s: State, name: string, jobs: map<int, set<string>>) {
    && Has(s.db.watchers, WatcherName, name)
    && forall x :: x in jobs ==> x in s.calls && s.calls[x] == Ready(name)
  }

  lemma StandsAtStart(s: State, name: string, jobs: map<int, set<string>>)
    requires AllReady(s, name, jobs) && FilesOk(s.db.files)
    ensures Stands(s, Trail(s.db.files, [], [], {}, {}), s.db.files, name, jobs)
  {
    assert s.db.files + [] == s.db.files;
  }

  /** Until a job adds, the table is the one they list. */
  lemma {:induction false} NoneAdded(s: State, es: seq<Event>, name: string, jobs: map<int, set<string>>)
    requires AllReady(s, name, jobs) && JobMoves(es, jobs) && forall i :: 0 <= i < |es| ==> !es[i].Add?
    ensures Play(s, es).db == s.db
    ensures forall x :: x in jobs ==> x in Play(s, es).calls && !Play(s, es).calls[x].Saved?
  {
    if es != [] {
      NoneAdded(s, es[..|es| - 1], name, jobs);
      NotSaved(Play(s, es[..|es| - 1]), es[|es| - 1], jobs);
    }
  }

  lemma NotSaved(s: State, e: Event, jobs: map<int, set<string>>)
    requires JobMove(e, jobs) && !e.Add? && forall x :: x in jobs ==> x in s.calls && !s.calls[x].Saved?
    ensures Next(s, e).db == s.db && forall x :: x in jobs ==> x in Next(s, e).calls && !Next(s, e).calls[x].Saved?
  {
  }

  /**
    Any number of jobs, any order of their steps, any failures: the table is made of the listed rows that the
    walks of those that removed saw, and of one row per untracked path of each job that added.
   */
  lemma {:induction false} JobsLeave(s: State, es: seq<Event>, name: string, jobs: map<int, set<string>>)
    returns (t: Trail)
    requires AllReady(s, name, jobs) && FilesOk(s.db.files) && AllCleanJobs(jobs) && JobMoves(es, jobs)
      && ListsFirst(es)
    ensures Stands(Play(s, es), t, s.db.files, name, jobs)
    ensures t.added == AddedIn(s, es) && t.gone == RemovedIn(s, es)
  {
    if es == [] {
      StandsAtStart(s, name, jobs);
      t := Trail(s.db.files, [], [], {}, {});
    } else {
      var front, e := es[..|es| - 1], es[|es| - 1];
      var before := JobsLeave(s, front, name, jobs);
      if e.List? {
        NoneAdded(s, front, name, jobs);
      }
      t := JobStands(Play(s, front), e, before, s.db.files, name, jobs);
    }
  }

  /** They leave duplicate rows exactly when some path was new to two jobs whose additions went through. */
  lemma OverlapDistinct(s: State, es: seq<Event>, name: string, jobs: map<int, set<string>>)
    requires AllReady(s, name, jobs) && FilesOk(s.db.files) && AllCleanJobs(jobs) && JobMoves(es, jobs)
      && ListsFirst(es)
    ensures OneRowPerPath(Play(s, es).db.files) <==>
            forall x, y, p :: (x in jobs && y in jobs && x in AddedIn(s, es) && y in AddedIn(s, es)
                               && p in Untracked(s.db.files, name, jobs[x])
                               && p in Untracked(s.db.files, name, jobs[y])) ==> x == y
  {
    var files := s.db.files;
    var t := JobsLeave(s, es, name, jobs);
    PathsNew(t, files, name, jobs);
    KeptNew(t.kept, files, name, t.paths);
    WrittenOnce(t.kept, t.rows, name, t.paths);
    assert OneRowPerPath(Play(s, es).db.files) <==> Apart(files, name, jobs, t.added);
  }

  lemma KeptNew(kept: seq<File>, files: seq<File>, watcher: string, paths: seq<string>)
    requires NewTo(files, watcher, paths) && forall f :: f in kept ==> f in files
    ensures NewTo(kept, watcher, paths)
  {
    forall p | p in paths ensures p !in TrackedPaths(kept, watcher) {
      TrackedMember(kept, watcher, p);
      TrackedMember(files, watcher, p);
    }
  }

  // ---------------------------------------------------------------- a sync and a job without the lock

  ghost function Starts(c: int, d: int, name: string): seq<Event> {
    [Begin(c, name)] + [Acquire(c)] + [Enter(d, name)]
  }

  lemma EnterOne(s: State, d: int, name: string)
    requires d !in s.calls && Known(s.db, name)
    ensures Next(s, Enter(d, name)) == SetCall(s, d, Ready(name)).(free := s.free + {d})
  {
  }

  /** Nothing stops a job without the lock. */
  lemma BothReady(s: State, c: int, d: int, name: string, jobs: map<int, set<string>>)
    requires c != d && c !in s.calls && d !in s.calls && name !in s.held && Known(s.db, name) && jobs.Keys == {c, d}
    ensures AllReady(Play(s, Starts(c, d, name)), name, jobs) && Play(s, Starts(c, d, name)).db == s.db
  {
    PlayThree(s, Begin(c, name), Acquire(c), Enter(d, name));
    Entered(s, c, name);
    var locked := SetCall(s, c, Ready(name)).(held := s.held + {name});
    EnterOne(locked, d, name);
  }

  lemma PlayParts(s: State, a: seq<Event>, b: seq<Event>, c: seq<Event>)
    ensures Play(s, a + b + c) == Play(Play(Play(s, a), b), c)
  {
    PlayConcat(s, a, b);
    PlayConcat(s, a + b, c);
  }

  /**
    The lock is what keeps rows unique. From every reachable state, a sync and a job without the lock, whose
    steps come in any order in which both list before either adds and may fail anywhere, leave duplicate rows
    exactly when both additions went through and some path was new to both walks.
   */
  lemma WithoutLock(s: State, es: seq<Event>, c: int, d: int, name: string, a: set<string>, b: set<string>,
                    fs: seq<Event>)
    requires Initial(s) && AllOrderly(s, es) && AllClean(a) && AllClean(b)
    requires var r := Play(s, es); c != d && c !in r.calls && d !in r.calls && name !in r.held && Known(r.db, name)
    requires JobMoves(fs, map[c := a, d := b]) && ListsFirst(fs)
    ensures var files, r := Play(s, es).db.files, Play(Play(s, es), Starts(c, d, name));
            OneRowPerPath(Play(s, es + Starts(c, d, name) + fs).db.files) <==>
            !(c in AddedIn(r, fs) && d in AddedIn(r, fs) && Untracked(files, name, a) * Untracked(files, name, b) != {})
  {
    var jobs := map[c := a, d := b];
    InvAlways(s, es);
    BothReady(Play(s, es), c, d, name, jobs);
    PlayParts(s, es, Starts(c, d, name), fs);
    OverlapDistinct(Play(Play(s, es), Starts(c, d, name)), fs, name, jobs);
    OnlyTwo(Play(Play(s, es), Starts(c, d, name)), fs, name, c, d, jobs);
  }

  lemma OnlyTwo(s: State, fs: seq<Event>, name: string, c: int, d: int, jobs: map<int, set<string>>)
    requires c != d && jobs.Keys == {c, d}
    ensures (forall x, y, p :: (x in jobs && y in jobs && x in AddedIn(s, fs) && y in AddedIn(s, fs)
                                && p in Untracked(s.db.files, name, jobs[x])
                                && p in Untracked(s.db.files, name, jobs[y])) ==> x == y)
            <==> !(c in AddedIn(s, fs) && d in AddedIn(s, fs)
                   && Untracked(s.db.files, name, jobs[c]) * Untracked(s.db.files, name, jobs[d]) != {})
  {
    var u, v := Untracked(s.db.files, name, jobs[c]), Untracked(s.db.files, name, jobs[d]);
    if u * v != {} {
      var p :| p in u * v;
      assert p in u && p in v;
    } else {
      assert forall p :: p in u && p in v ==> p in u * v;
    }
  }

  // ---------------------------------------------------------------- a run with duplicates

  ghost function Reads(c: int, d: int, a: set<string>, one: seq<string>, b: set<string>, two: seq<string>): seq<Event> {
    [List(c, true)] + [List(d, true)] + [Walk(c, a, one)] + [Walk(d, b, two)]
  }

  lemma BothWalked(s: State, c: int, d: int, name: string, a: set<string>, one: seq<string>, b: set<string>,
                   two: seq<string>)
    requires c != d && AllReady(s, name, map[c := a, d := b])
    requires Lists(one, Untracked(s.db.files, name, a)) && Lists(two, Untracked(s.db.files, name, b))
    ensures var files, r := s.db.files, Play(s, Reads(c, d, a, one, b, two));
            && c in r.calls && r.calls[c] == Walked(name, one, Vanished(files, name, a))
            && d in r.calls && r.calls[d] == Walked(name, two, Vanished(files, name, b))
            && r.db == s.db
  {
    var files := s.db.files;
    var s2 := SetCall(SetCall(s, c, ListedCall(files, name)), d, ListedCall(files, name));
    ListMove(s, c, true, name);
    ListMove(SetCall(s, c, ListedCall(files, name)), d, true, name);
    WalkMove(s2, c, files, name, a, one);
    WalkMove(SetCall(s2, c, Walked(name, one, Vanished(files, name, a))), d, files, name, b, two);
    PlayThree(s, List(c, true), List(d, true), Walk(c, a, one));
    PlaySnoc(s, [List(c, true)] + [List(d, true)] + [Walk(c, a, one)], Walk(d, b, two));
  }

  /** Two jobs that have both listed and walked may both add. */
  lemma BothAdd(s: State, es: seq<Event>, c: int, d: int, name: string, one: seq<string>, two: seq<string>,
                va: seq<string>, vb: seq<string>, now: Time, now': Time)
    requires c != d && c in Play(s, es).calls && d in Play(s, es).calls
      && Has(Play(s, es).db.watchers, WatcherName, name)
    requires Play(s, es).calls[c] == Walked(name, one, va) && Play(s, es).calls[d] == Walked(name, two, vb)
    ensures var fs := es + [Add(c, true, now)] + [Add(d, true, now')];
            c in AddedIn(s, fs) && d in AddedIn(s, fs)
  {
    var e4 := es + [Add(c, true, now)];
    PlaySnoc(s, es, Add(c, true, now));
    var rows := AddMove(Play(s, es), c, now, name, one, va);
    assert e4[..|e4| - 1] == es;
    assert (e4 + [Add(d, true, now')])[..|e4|] == e4;
  }

  /** Both list, both walk, both add. */
  ghost function Doubled(c: int, d: int, q: string): seq<Event> {
    Reads(c, d, {q}, [q], {q}, [q]) + [Add(c, true, 0)] + [Add(d, true, 0)]
  }

  lemma DoubledAdds(s: State, c: int, d: int, name: string, q: string)
    requires c != d && AllReady(s, name, map[c := {q}, d := {q}]) && Lists([q], Untracked(s.db.files, name, {q}))
    ensures c in AddedIn(s, Doubled(c, d, q)) && d in AddedIn(s, Doubled(c, d, q))
  {
    var vanished := Vanished(s.db.files, name, {q});
    BothWalked(s, c, d, name, {q}, [q], {q}, [q]);
    BothAdd(s, Reads(c, d, {q}, [q], {q}, [q]), c, d, name, [q], [q], vanished, vanished, 0, 0);
  }

  lemma DoubledMoves(c: int, d: int, q: string)
    requires c != d
    ensures JobMoves(Doubled(c, d, q), map[c := {q}, d := {q}]) && ListsFirst(Doubled(c, d, q))
  {
  }

  /** For instance: one new file, seen by both, ends up with two rows. */
  lemma DuplicateRow(p: string, q: string)
    requires Paths.IsClean(p) && Paths.IsClean(q) && p != q
    ensures Initial(OneFile(p)) && !OneRowPerPath(Play(OneFile(p), [] + Starts(0, 1, "w") + Doubled(0, 1, q)).db.files)
  {
    var s := OneFile(p);
    NewPath(p, q);
    BothReady(s, 0, 1, "w", map[0 := {q}, 1 := {q}]);
    DoubledAdds(Play(s, Starts(0, 1, "w")), 0, 1, "w", q);
    DoubledMoves(0, 1, q);
    assert Play(s, []) == s;
    WithoutLock(s, [], 0, 1, "w", {q}, {q}, Doubled(0, 1, q));
  }

  lemma NewPath(p: string, q: string)
    requires Paths.IsClean(p) && Paths.IsClean(q) && p != q
    ensures Initial(OneFile(p)) && Known(OneFile(p).db, "w") && AllClean({q})
    ensures var files := OneFile(p).db.files;
            Untracked(files, "w", {q}) * Untracked(files, "w", {q}) != {} && Lists([q], Untracked(files, "w", {q}))
  {
    var files := OneFile(p).db.files;
    OneFileInitial(p);
    FreshRowKeyed("w", p, false, 0, 1);
    TrackedMember(files, "w", q);
    assert q in Untracked(files, "w", {q}) * Untracked(files, "w", {q});
    assert Untracked(files, "w", {q}) == {q} == Elements([q]);
  }
}
