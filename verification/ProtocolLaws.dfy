/**
  What holds in every run of the server: no duplicate rows, lock discipline, convergence. A job that runs
  without interruption is the job of `Sync` or `Flush`.
 */
module ProtocolLaws {
  import opened GoSet
  import opened Schema
  import opened Database
  import opened Sync
  import opened SyncLaws
  import opened PendingView
  import opened Protocol
  import Transfer

  // ---------------------------------------------------------------- no duplicate rows

  /** Within one watcher, no path has two rows. */
  ghost predicate OneRowPerPath(files: seq<File>) {
    forall i, j :: 0 <= i < j < |files| && files[i].watcherName == files[j].watcherName ==>
      FullPath(files[i]) != FullPath(files[j])
  }

  lemma FilesOkOneRow(files: seq<File>)
    requires FilesOk(files)
    ensures OneRowPerPath(files)
  {
    forall i, j | 0 <= i < j < |files| && files[i].watcherName == files[j].watcherName
      ensures FullPath(files[i]) != FullPath(files[j])
    {
      assert files[i] in files && files[j] in files;
      assert KeyOf(files[i]) != KeyOf(files[j]);
    }
  }

  /**
    In every interleaving of syncs, flushes, renames, cascading deletes and jobs of newly created
    watchers that overlap no other job of theirs, no two rows of watched_files stand for the same path
    of the same watcher, although no constraint says so.
   */
  lemma NoDuplicateRows(s: State, es: seq<Event>)
    requires Initial(s) && AllOrderly(s, es)
    ensures OneRowPerPath(Play(s, es).db.files)
  {
    InvAlways(s, es);
    FilesOkOneRow(Play(s, es).db.files);
  }

  // ---------------------------------------------------------------- locks

  /**
    In every run, jobs without the lock and unclean walks included, a name is held exactly when some
    call is between acquiring and releasing it, and never by two calls; a call that has returned holds nothing.
   */
  lemma LockDiscipline(s: State, es: seq<Event>)
    requires Initial(s)
    ensures var r := Play(s, es);
            && (forall n :: n in r.held <==> exists c :: Holds(r, c, n))
            && (forall c, d, n :: Holds(r, c, n) && Holds(r, d, n) ==> c == d)
            && (forall c, n :: c in r.calls && r.calls[c] == Closed ==> !Holds(r, c, n))
  {
    LocksAlways(s, es);
  }

  // ---------------------------------------------------------------- one call alone

  /** The writing steps of one call with nothing in between. */
  ghost function Writes(s: State, c: int, env: Env): State {
    Next(Next(s, Add(c, env.addOk, env.now)), Remove(c, env.removeOk))
  }

  /** The first write of one call. */
  lemma AddState(s: State, c: int, name: string, added: set<string>, removed: seq<string>, env: Env)
    requires c in s.calls && s.calls[c] == Walked(name, env.order(added), removed)
    requires Orders(env.order) && Has(s.db.watchers, WatcherName, name)
    ensures Next(s, Add(c, env.addOk, env.now)) ==
            if added != {} && !env.addOk then SetCall(s, c, Leaving(name))
            else SetCall(s, c, Saved(name, removed))
                   .(db := if added == {} then s.db else AfterAdd(s.db, name, env.order(added), c in s.free, env.now))
  {
    if added == {} {
      EmptyOrder(env);
    } else {
      SomeOrder(env, added);
      AddPaths(s, c, name, env.order(added), removed, env.addOk, env.now);
    }
  }

  lemma AddPaths(s: State, c: int, name: string, paths: seq<string>, removed: seq<string>, ok: bool, now: Time)
    requires c in s.calls && s.calls[c] == Walked(name, paths, removed) && paths != []
      && Has(s.db.watchers, WatcherName, name)
    ensures Next(s, Add(c, ok, now)) ==
            if ok then SetCall(s, c, Saved(name, removed)).(db := AfterAdd(s.db, name, paths, c in s.free, now))
            else SetCall(s, c, Leaving(name))
  {
    NewRowsAllowed(s.db, name, paths, c in s.free, now);
    InsertIsAdd(s.db, name, paths, c in s.free, now);
    assert Next(s, Add(c, ok, now)) == NextAdd(s, c, s.calls[c], ok, now);
  }

  lemma SomeOrder(env: Env, added: set<string>)
    requires Orders(env.order) && added != {}
    ensures env.order(added) != []
  {
  }

  /** The second write of one call. */
  lemma RemoveState(s: State, c: int, name: string, removed: seq<string>, ok: bool)
    requires c in s.calls && s.calls[c] == Saved(name, removed)
    ensures Next(s, Remove(c, ok)) == SetCall(s, c, Leaving(name))
              .(db := if removed == [] || !ok then s.db else AfterRemove(s.db, name, removed))
  {
  }

  lemma NoRemoval(s: State, c: int, ok: bool)
    requires c in s.calls && !s.calls[c].Saved?
    ensures Next(s, Remove(c, ok)) == s
  {
  }

  lemma WritesAreSave(s: State, c: int, name: string, added: set<string>, removed: seq<string>, env: Env)
    requires c in s.calls && s.calls[c] == Walked(name, env.order(added), removed)
    requires Orders(env.order) && Has(s.db.watchers, WatcherName, name)
    ensures Writes(s, c, env)
      == SetCall(s, c, Leaving(name)).(db := SaveOutcome(s.db, name, added, removed, c in s.free, env).0)
  {
    AddState(s, c, name, added, removed, env);
    if added == {} || env.addOk {
      var t := if added == {} then s.db else AfterAdd(s.db, name, env.order(added), c in s.free, env.now);
      RemoveState(SetCall(s, c, Saved(name, removed)).(db := t), c, name, removed, env.removeOk);
    } else {
      NoRemoval(SetCall(s, c, Leaving(name)), c, env.removeOk);
    }
    assert s.calls[c := Saved(name, removed)][c := Leaving(name)] == s.calls[c := Leaving(name)];
  }

  /** The steps of one call with nothing in between. */
  ghost function Solo(s: State, c: int, name: string, accepted: set<string>, order: seq<string>, env: Env): State {
    var s1 := Next(Next(s, Begin(c, name)), Acquire(c));
    var s2 := Next(Next(s1, List(c, env.dialOk && env.listOk)), Walk(c, accepted, order));
    Next(Writes(s2, c, env), Release(c))
  }

  /** A call that runs without interruption changes the database as the sync job does, and nothing else. */
  lemma SoloIsSync(s: State, c: int, name: string, accepted: set<string>, env: Env)
    requires c !in s.calls && c !in s.free && name !in s.held && Known(s.db, name) && Orders(env.order)
    ensures Solo(s, c, name, accepted, env.order(Untracked(s.db.files, name, accepted)), env)
            == SetCall(s, c, Closed).(db := SyncOutcome(s.db, name, accepted, false, env).0)
  {
    var order := env.order(Untracked(s.db.files, name, accepted));
    assert Lists(order, Untracked(s.db.files, name, accepted));
    var s1 := SetCall(s, c, Ready(name)).(held := s.held + {name});
    Entered(s, c, name);
    InsideCall(s1, c, name, accepted, order, env);
    Released(s, c, name, SyncOutcome(s.db, name, accepted, false, env).0);
  }

  /** Releasing the lock taken by this call, from a state with these tables. */
  lemma Released(s: State, c: int, name: string, db: Tables)
    requires c !in s.free && name !in s.held
    ensures var s1 := SetCall(s, c, Ready(name)).(held := s.held + {name});
            Next(SetCall(s1, c, Leaving(name)).(db := db), Release(c)) == SetCall(s, c, Closed).(db := db)
  {
    assert s.held + {name} - {name} == s.held;
    assert s.calls[c := Ready(name)][c := Leaving(name)][c := Closed] == s.calls[c := Closed];
  }

  /** From just after the start of a job, locked or not, to just before its end. */
  lemma InsideCall(s: State, c: int, name: string, accepted: set<string>, order: seq<string>, env: Env)
    requires c in s.calls && s.calls[c] == Ready(name) && Has(s.db.watchers, WatcherName, name) && Orders(env.order)
    requires order == env.order(Untracked(s.db.files, name, accepted))
      && Lists(order, Untracked(s.db.files, name, accepted))
    ensures Writes(Next(Next(s, List(c, env.dialOk && env.listOk)), Walk(c, accepted, order)), c, env)
            == SetCall(s, c, Leaving(name)).(db := SyncOutcome(s.db, name, accepted, c in s.free, env).0)
  {
    if env.dialOk && env.listOk {
      var removed := Vanished(s.db.files, name, accepted);
      var w := Walked(name, order, removed);
      Diffed(s, c, name, accepted, order);
      WritesAreSave(SetCall(s, c, w), c, name, Untracked(s.db.files, name, accepted), removed, env);
      assert s.calls[c := w][c := Leaving(name)] == s.calls[c := Leaving(name)];
    } else {
      var left := SetCall(s, c, Leaving(name));
      assert Next(s, List(c, false)) == left;
      assert Next(left, Walk(c, accepted, order)) == left && Writes(left, c, env) == left;
    }
  }

  lemma Entered(s: State, c: int, name: string)
    requires c !in s.calls && name !in s.held && Known(s.db, name)
    ensures Next(Next(s, Begin(c, name)), Acquire(c)) == SetCall(s, c, Ready(name)).(held := s.held + {name})
  {
    assert s.calls[c := Looked(name)][c := Ready(name)] == s.calls[c := Ready(name)];
  }

  lemma Diffed(s: State, c: int, name: string, accepted: set<string>, order: seq<string>)
    requires c in s.calls && s.calls[c] == Ready(name) && Lists(order, Untracked(s.db.files, name, accepted))
    ensures Next(Next(s, List(c, true)), Walk(c, accepted, order))
            == SetCall(s, c, Walked(name, order, Vanished(s.db.files, name, accepted)))
  {
    var k := Listed(name, TrackedPaths(s.db.files, name), Select(s.db.files, FileWatcher, {name}));
    var w := Walked(name, order, Vanished(s.db.files, name, accepted));
    assert s.calls[c := k][c := w] == s.calls[c := w];
  }

  // ---------------------------------------------------------------- convergence

  /** The environment of an uneventful call. */
  ghost predicate Smooth(env: Env) {
    Orders(env.order) && env.dialOk && env.listOk && env.addOk && env.removeOk
  }

  /** The untracked paths of a table, in some order, may be added to it. */
  lemma UntrackedFits(files: seq<File>, name: string, accepted: set<string>, env: Env)
    requires Orders(env.order) && AllClean(accepted)
    ensures CallOk(files, Walked(name, env.order(Untracked(files, name, accepted)), []))
  {
    var untracked := Untracked(files, name, accepted);
    var order := env.order(untracked);
    assert Lists(order, untracked);
    forall p | p in order ensures p in untracked {
      assert p in Elements(order);
    }
    forall f | f in files && f.watcherName == name ensures FullPath(f) !in order {
      TrackedMember(files, name, FullPath(f));
    }
  }

  /** A sync of a table without duplicates leaves none, whatever its outcome. */
  lemma SyncKeepsDistinct(t: Tables, name: string, accepted: set<string>, flush: bool, env: Env)
    requires FilesOk(t.files) && Orders(env.order) && AllClean(accepted)
    ensures FilesOk(SyncOutcome(t, name, accepted, flush, env).0.files)
  {
    UntrackedFits(t.files, name, accepted, env);
    AddedDistinct(t.files, name, env.order(Untracked(t.files, name, accepted)), flush, env.now);
    SyncShape(t, name, accepted, flush, env);
    RejectDistinct(t.files + Additions(t.files, name, accepted, flush, env), KeyOf,
                   PathKeys(name, Vanished(t.files, name, accepted)), KeyOf);
    SyncExact(t, name, accepted, flush, env);
  }

  /**
    Whatever failed or was interleaved before, one uninterrupted successful call leaves the watcher
    tracking exactly the accepted paths, one row per path.
   */
  lemma Converges(s: State, es: seq<Event>, c: int, name: string, accepted: set<string>, env: Env)
    requires Initial(s) && AllOrderly(s, es) && AllClean(accepted) && Smooth(env)
    requires var r := Play(s, es); c !in r.calls && name !in r.held && Known(r.db, name)
    ensures var r := Play(s, es);
            var after := Solo(r, c, name, accepted, env.order(Untracked(r.db.files, name, accepted)), env).db.files;
            TrackedPaths(after, name) == accepted && OneRowPerPath(after)
  {
    var r := Play(s, es);
    InvAlways(s, es);
    LocksAlways(s, es);
    SoloIsSync(r, c, name, accepted, env);
    SyncKeepsDistinct(r.db, name, accepted, false, env);
    FilesOkOneRow(SyncOutcome(r.db, name, accepted, false, env).0.files);
    SmoothSucceeds(r.db, name, accepted, env);
    ReportIsDifference(r.db, name, accepted, false, env);
  }

  lemma SmoothSucceeds(t: Tables, name: string, accepted: set<string>, env: Env)
    requires Smooth(env) && Has(t.watchers, WatcherName, name)
    ensures SyncOutcome(t, name, accepted, false, env).1.Ok?
  {
  }

  // ---------------------------------------------------------------- one flush alone

  /** The first n copies of a flush job, with nothing in between. */
  ghost function Copies(s: State, j: int, n: nat): State {
    if n == 0 then s else Next(Copies(s, j, n - 1), FlushCopy(j, true))
  }

  /** State `r` differs from `s` in that job `j` has copied the first n of these files. */
  ghost predicate CopiedSoFar(s: State, r: State, j: int, ps: seq<PendingFlush>, n: nat)
    requires n <= |ps|
  {
    && r.db == s.db && j in r.flushes && r.flushes[j] == Copying(ps, n)
    && forall i :: 0 <= i < n ==> Copy(j, ps[i]) in r.copies
  }

  lemma {:induction false} CopiesDone(s: State, j: int, ps: seq<PendingFlush>, n: nat)
    requires j in s.flushes && s.flushes[j] == Copying(ps, 0) && n <= |ps|
    ensures CopiedSoFar(s, Copies(s, j, n), j, ps, n)
  {
    if n > 0 {
      CopiesDone(s, j, ps, n - 1);
      CopyMore(s, Copies(s, j, n - 1), j, ps, n - 1);
    }
  }

  lemma CopyMore(s: State, r: State, j: int, ps: seq<PendingFlush>, n: nat)
    requires n < |ps| && CopiedSoFar(s, r, j, ps, n)
    ensures CopiedSoFar(s, Next(r, FlushCopy(j, true)), j, ps, n + 1)
  {
    CopyOne(r, j, ps, n);
  }

  lemma CopyOne(s: State, j: int, ps: seq<PendingFlush>, n: nat)
    requires j in s.flushes && s.flushes[j] == Copying(ps, n) && n < |ps|
    ensures Next(s, FlushCopy(j, true)) == SetFlush(s, j, Copying(ps, n + 1)).(copies := s.copies + [Copy(j, ps[n])])
  {
  }

  /** List, copy everything, mark, with nothing in between. */
  ghost function SoloFlush(s: State, j: int, name: string): State {
    Next(Copies(Next(s, FlushList(j, name, true)), j, |PendingFor(s.db, name)|), FlushMark(j, true))
  }

  lemma PendingIdsAre(ps: seq<PendingFlush>)
    ensures PendingIds(ps) == Elements(Transfer.IdsOf(ps))
  {
    forall p | p in ps ensures p.fileId in Transfer.IdsOf(ps) {
      var i :| 0 <= i < |ps| && ps[i] == p;
      assert Transfer.IdsOf(ps)[i] == p.fileId;
    }
  }

  /** An uninterrupted flush copies every listed file, marks what the flush job marks, and leaves nothing pending. */
  lemma SoloFlushIsFlush(s: State, j: int, name: string)
    requires Consistent(s.db) && j !in s.flushes && PendingFor(s.db, name) != []
    ensures var ps, r := PendingFor(s.db, name), SoloFlush(s, j, name);
            && r.db == Effect(s.db, MarkFiles(Elements(Transfer.IdsOf(ps))))
            && PendingFor(r.db, name) == []
            && forall p :: p in ps ==> Copy(j, p) in r.copies
  {
    var ps, listed := PendingFor(s.db, name), SetFlush(s, j, Copying(PendingFor(s.db, name), 0));
    assert Next(s, FlushList(j, name, true)) == listed;
    CopiesDone(listed, j, ps, |ps|);
    MarkAll(Copies(listed, j, |ps|), j, ps);
    PendingIdsAre(ps);
    Transfer.NothingLeftPending(s.db, name, PendingIds(ps));
    forall p | p in ps ensures Copy(j, p) in SoloFlush(s, j, name).copies {
      var i :| 0 <= i < |ps| && ps[i] == p;
    }
  }

  lemma MarkAll(s: State, j: int, ps: seq<PendingFlush>)
    requires j in s.flushes && s.flushes[j] == Copying(ps, |ps|)
    ensures Next(s, FlushMark(j, true)) == SetFlush(s, j, FlushOver).(db := Effect(s.db, MarkFiles(PendingIds(ps))))
  {
  }
}
