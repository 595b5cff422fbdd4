/**
  The running server as a state machine: any number of sync jobs, with the lock and without, of flush
  jobs, and of other statements the repository can run, interleaved step by step over one database.

  A walk is one step that may accept any set of paths, so the disk may change between walks. What a run
  is assumed to respect is `Orderly`.
 */
module Protocol {
  import opened GoSet
  import opened Schema
  import opened Database
  import opened Sync
  import opened SyncLaws
  import opened PendingView
  import Integrity
  import Paths

  /** Where one sync job stands, with what it holds in memory. */
  datatype Call =
    | Looked(name: string)
    | Ready(name: string)
    | Listed(name: string, tracked: set<string>, rows: seq<File>)
    | Walked(name: string, untracked: seq<string>, vanished: seq<string>)
    | Saved(name: string, vanished: seq<string>)
    | Leaving(name: string)
    | Closed

  /** The job is under way. */
  predicate Inside(k: Call) {
    k.Ready? || k.Listed? || k.Walked? || k.Saved? || k.Leaving?
  }

  /** Where one flush job stands. */
  datatype FlushJob = Copying(pending: seq<PendingFlush>, copied: nat) | FlushOver

  /** Flush job `job` finished copying the file of `item`. */
  datatype Copy = Copy(job: int, item: PendingFlush)

  /** `free` holds the calls whose job runs without the lock: those of a watcher created with its existing files. */
  datatype State = State(db: Tables, held: set<string>, calls: map<int, Call>, free: set<int>,
                         flushes: map<int, FlushJob>, copies: seq<Copy>)

  datatype Event =
    | Admin(s: Statement)
    | Begin(call: int, name: string)
    | Acquire(call: int)
    | Enter(call: int, name: string)
    | List(call: int, ok: bool)
    | Walk(call: int, accepted: set<string>, order: seq<string>)
    | Add(call: int, ok: bool, now: Time)
    | Remove(call: int, ok: bool)
    | Release(call: int)
    | FlushList(job: int, name: string, ok: bool)
    | FlushCopy(job: int, ok: bool)
    | FlushMark(job: int, ok: bool)

  // ---------------------------------------------------------------- steps

  predicate IsAdmin(s: Statement) {
    !s.InsertFiles? && !s.DeleteFiles? && !s.MarkFiles?
  }

  function KeyOfPending(p: PendingFlush): FileKey {
    FileKey(p.watcherName, p.filePath, p.fileName)
  }

  function PendingIds(ps: seq<PendingFlush>): set<int> {
    set p | p in ps :: p.fileId
  }

  function SetCall(s: State, c: int, k: Call): State {
    s.(calls := s.calls[c := k])
  }

  function SetFlush(s: State, j: int, f: FlushJob): State {
    s.(flushes := s.flushes[j := f])
  }

  /** The watcher and its machine are looked up before the lock is tried. */
  predicate Known(t: Tables, name: string) {
    name != "" && exists w :: w in t.watchers && w.name == name && Has(t.machines, MachineName, w.machineName)
  }

  ghost function NextList(s: State, c: int, k: Call, ok: bool): State
    requires k.Ready?
  {
    if !ok then SetCall(s, c, Leaving(k.name))
    else SetCall(s, c, Listed(k.name, TrackedPaths(s.db.files, k.name), Select(s.db.files, FileWatcher, {k.name})))
  }

  /** The job without the lock records its rows as flushed already. */
  function NextAdd(s: State, c: int, k: Call, ok: bool, now: Time): State
    requires k.Walked?
  {
    var insert := InsertFiles(NewRows(k.name, k.untracked, c in s.free, now));
    if k.untracked == [] then SetCall(s, c, Saved(k.name, k.vanished))
    else if !ok || !Allowed(s.db, insert) then SetCall(s, c, Leaving(k.name))
    else SetCall(s, c, Saved(k.name, k.vanished)).(db := Effect(s.db, insert))
  }

  function NextRemove(s: State, c: int, k: Call, ok: bool): State
    requires k.Saved?
  {
    if k.vanished == [] || !ok then SetCall(s, c, Leaving(k.name))
    else SetCall(s, c, Leaving(k.name)).(db := Effect(s.db, DeleteFiles(PathKeys(k.name, k.vanished))))
  }

  function NextRelease(s: State, c: int, k: Call): State
    requires k.Leaving?
  {
    SetCall(s, c, Closed).(held := if c in s.free then s.held else s.held - {k.name})
  }

  /** What a flush job starts with. */
  function FirstListing(t: Tables, name: string, ok: bool): FlushJob {
    if ok && PendingFor(t, name) != [] then Copying(PendingFor(t, name), 0) else FlushOver
  }

  function NextFlush(s: State, j: int, f: FlushJob, e: Event): State
    requires f.Copying?
  {
    match e
    case FlushCopy(_, ok) =>
      if f.copied >= |f.pending| then s
      else if !ok then SetFlush(s, j, FlushOver)
      else SetFlush(s, j, f.(copied := f.copied + 1)).(copies := s.copies + [Copy(j, f.pending[f.copied])])
    case FlushMark(_, ok) =>
      if f.copied < |f.pending| then s
      else if !ok then SetFlush(s, j, FlushOver)
      else SetFlush(s, j, FlushOver).(db := Effect(s.db, MarkFiles(PendingIds(f.pending))))
    case _ => s
  }

  /** One step; an event that is not enabled changes nothing. */
  ghost function Next(s: State, e: Event): State {
    match e
    case Admin(st) => if IsAdmin(st) then s.(db := Exec(s.db, st)) else s
    case Begin(c, name) =>
      if c in s.calls then s else SetCall(s, c, if Known(s.db, name) then Looked(name) else Closed)
    case Acquire(c) =>
      if c !in s.calls || !s.calls[c].Looked? then s
      else if s.calls[c].name in s.held then SetCall(s, c, Closed)
      else SetCall(s, c, Ready(s.calls[c].name)).(held := s.held + {s.calls[c].name})
    case Enter(c, name) =>
      if c in s.calls || !Known(s.db, name) then s else SetCall(s, c, Ready(name)).(free := s.free + {c})
    case List(c, ok) =>
      if c !in s.calls || !s.calls[c].Ready? then s else NextList(s, c, s.calls[c], ok)
    case Walk(c, accepted, order) =>
      if c !in s.calls || !s.calls[c].Listed? || !Lists(order, accepted - s.calls[c].tracked) then s
      else SetCall(s, c, Walked(s.calls[c].name, order, Stale(s.calls[c].rows, accepted)))
    case Add(c, ok, now) =>
      if c !in s.calls || !s.calls[c].Walked? then s else NextAdd(s, c, s.calls[c], ok, now)
    case Remove(c, ok) =>
      if c !in s.calls || !s.calls[c].Saved? then s else NextRemove(s, c, s.calls[c], ok)
    case Release(c) =>
      if c !in s.calls || !s.calls[c].Leaving? then s else NextRelease(s, c, s.calls[c])
    case FlushList(j, name, ok) =>
      if j in s.flushes then s
      else SetFlush(s, j, FirstListing(s.db, name, ok))
    case FlushCopy(j, _) => if j in s.flushes && s.flushes[j].Copying? then NextFlush(s, j, s.flushes[j], e) else s
    case FlushMark(j, _) => if j in s.flushes && s.flushes[j].Copying? then NextFlush(s, j, s.flushes[j], e) else s
  }

  ghost function Play(s: State, es: seq<Event>): State {
    if es == [] then s else Next(Play(s, es[..|es| - 1]), es[|es| - 1])
  }

  lemma PlaySnoc(s: State, es: seq<Event>, e: Event)
    ensures Play(s, es + [e]) == Next(Play(s, es), e)
  {
    assert (es + [e])[..|es|] == es;
  }

  lemma PlayTwo(s: State, e1: Event, e2: Event)
    ensures Play(s, [e1] + [e2]) == Next(Next(s, e1), e2)
  {
    PlayOne(s, e1);
    PlaySnoc(s, [e1], e2);
  }

  lemma PlayOne(s: State, e: Event)
    ensures Play(s, [e]) == Next(s, e)
  {
    assert [e] == [] + [e];
    PlaySnoc(s, [], e);
  }

  lemma PlayThree(s: State, e1: Event, e2: Event, e3: Event)
    ensures Play(s, [e1] + [e2] + [e3]) == Next(Next(Next(s, e1), e2), e3)
  {
    PlayTwo(s, e1, e2);
    PlaySnoc(s, [e1] + [e2], e3);
  }

  lemma {:induction false} PlayConcat(s: State, es: seq<Event>, fs: seq<Event>)
    ensures Play(s, es + fs) == Play(Play(s, es), fs)
  {
    if fs == [] {
      assert es + fs == es;
    } else {
      assert (es + fs)[..|es + fs| - 1] == es + fs[..|fs| - 1];
      PlayConcat(s, es, fs[..|fs| - 1]);
    }
  }

  // ---------------------------------------------------------------- jobs and their locks

  /** Call `c` runs a job for this name. */
  predicate Job(s: State, c: int, name: string) {
    c in s.calls && Inside(s.calls[c]) && s.calls[c].name == name
  }

  /** It does so between acquiring and releasing the lock. */
  predicate Holds(s: State, c: int, name: string) {
    Job(s, c, name) && c !in s.free
  }

  /** A job without the lock is under way for this name. */
  ghost predicate RunsFree(s: State, name: string) {
    exists c :: Job(s, c, name) && c in s.free
  }

  /**
    What a run is assumed to respect: walkers yield clean paths, and the one kind of job that takes no
    lock does not overlap another job of its watcher.
   */
  ghost predicate Orderly(s: State, e: Event) {
    match e
    case Walk(_, accepted, _) => AllClean(accepted)
    case Enter(_, name) => forall c :: !Job(s, c, name)
    case Acquire(c) => c in s.calls && s.calls[c].Looked? ==> !RunsFree(s, s.calls[c].name)
    case _ => true
  }

  ghost predicate AllOrderly(s: State, es: seq<Event>) {
    forall i :: 0 <= i < |es| ==> Orderly(Play(s, es[..i]), es[i])
  }

  /** A server that just started over a consistent database without duplicate rows. */
  ghost predicate Initial(s: State) {
    && Consistent(s.db) && FilesOk(s.db.files)
    && s.held == {} && s.calls == map[] && s.free == {} && s.flushes == map[] && s.copies == []
  }

  // ---------------------------------------------------------------- invariant

  /** A name is held exactly when some call holds it, and never by two. */
  ghost predicate LocksOk(s: State) {
    && (forall n :: n in s.held <==> exists c :: Holds(s, c, n))
    && (forall c, d, n :: Holds(s, c, n) && Holds(s, d, n) ==> c == d)
  }

  /** No two jobs, locked or not, run for one name. */
  ghost predicate OneJob(s: State) {
    forall c, d, n :: Job(s, c, n) && Job(s, d, n) ==> c == d
  }

  /** What a call remembers still covers the rows of its watcher; what it will add is not there yet. */
  ghost predicate CallOk(files: seq<File>, k: Call) {
    && (k.Listed? ==> forall f :: f in files && f.watcherName == k.name ==> FullPath(f) in k.tracked)
    && (k.Walked? ==>
          && NoRepeats(k.untracked) && (forall p :: p in k.untracked ==> Paths.IsClean(p))
          && forall f :: f in files && f.watcherName == k.name ==> FullPath(f) !in k.untracked)
  }

  ghost predicate FilesOk(files: seq<File>) {
    AllKeyed(files) && Distinct(files, KeyOf)
  }

  /** The job's progress is on record, and an id is listed once. */
  ghost predicate FlushOk(copies: seq<Copy>, j: int, f: FlushJob) {
    f.Copying? ==>
      && f.copied <= |f.pending|
      && (forall i :: 0 <= i < f.copied ==> Copy(j, f.pending[i]) in copies)
      && (forall p, q :: p in f.pending && q in f.pending && p.fileId == q.fileId ==> p == q)
  }

  ghost predicate Inv(s: State) {
    && Consistent(s.db) && FilesOk(s.db.files) && LocksOk(s) && OneJob(s)
    && (forall c :: c in s.calls ==> CallOk(s.db.files, s.calls[c]))
    && (forall j :: j in s.flushes ==> FlushOk(s.copies, j, s.flushes[j]))
  }

  // ---------------------------------------------------------------- locks, in every run

  lemma SameHolders(s: State, r: State)
    requires LocksOk(s) && r.held == s.held && forall c, n :: Holds(r, c, n) <==> Holds(s, c, n)
    ensures LocksOk(r)
  {
  }

  lemma AcquireLocks(s: State, c: int, name: string)
    requires LocksOk(s) && c in s.calls && !Inside(s.calls[c]) && c !in s.free && name !in s.held
    ensures LocksOk(SetCall(s, c, Ready(name)).(held := s.held + {name}))
  {
    var r := SetCall(s, c, Ready(name)).(held := s.held + {name});
    forall d, n ensures Holds(r, d, n) <==> Holds(s, d, n) || (d == c && n == name) {}
    forall n ensures n in r.held <==> exists d :: Holds(r, d, n) {
      if n in s.held {
        var d :| Holds(s, d, n);
        assert Holds(r, d, n);
      } else if n == name {
        assert Holds(r, c, n);
      }
    }
  }

  lemma ReleaseLocks(s: State, c: int)
    requires LocksOk(s) && c in s.calls && s.calls[c].Leaving?
    ensures LocksOk(NextRelease(s, c, s.calls[c]))
  {
    var r, name := NextRelease(s, c, s.calls[c]), s.calls[c].name;
    if c in s.free {
      SameHolders(s, r);
    } else {
      assert Holds(s, c, name);
      forall d, n ensures Holds(r, d, n) <==> Holds(s, d, n) && n != name {}
      forall n ensures n in r.held <==> exists d :: Holds(r, d, n) {
        if n in r.held {
          var d :| Holds(s, d, n);
          assert Holds(r, d, n);
        }
      }
    }
  }

  /** Calls that have not entered are not free: only entering frees a call. */
  ghost predicate FreeOk(s: State) {
    forall c :: c in s.free ==> c in s.calls && !s.calls[c].Looked?
  }

  lemma StartLocks(s: State, e: Event)
    requires LocksOk(s) && FreeOk(s) && (e.Begin? || e.Acquire? || e.Enter?)
    ensures LocksOk(Next(s, e)) && FreeOk(Next(s, e))
  {
    if e.Acquire? && Next(s, e) != s && s.calls[e.call].name !in s.held {
      AcquireLocks(s, e.call, s.calls[e.call].name);
    } else {
      SameHolders(s, Next(s, e));
    }
  }

  lemma JobLocks(s: State, e: Event)
    requires LocksOk(s) && FreeOk(s) && (e.List? || e.Walk? || e.Add? || e.Remove? || e.Release?)
    ensures LocksOk(Next(s, e)) && FreeOk(Next(s, e))
  {
    if e.Release? && Next(s, e) != s {
      ReleaseLocks(s, e.call);
    } else {
      SameHolders(s, Next(s, e));
    }
  }

  /** Every step of every run keeps the locks in order, overlapping jobs without the lock included. */
  lemma LocksStep(s: State, e: Event)
    requires LocksOk(s) && FreeOk(s)
    ensures LocksOk(Next(s, e)) && FreeOk(Next(s, e))
  {
    if e.Begin? || e.Acquire? || e.Enter? {
      StartLocks(s, e);
    } else if e.Admin? || e.FlushList? || e.FlushCopy? || e.FlushMark? {
      SameHolders(s, Next(s, e));
    } else {
      JobLocks(s, e);
    }
  }

  lemma {:induction false} LocksAlways(s: State, es: seq<Event>)
    requires Initial(s)
    ensures LocksOk(Play(s, es)) && FreeOk(Play(s, es))
  {
    if es != [] {
      LocksAlways(s, es[..|es| - 1]);
      LocksStep(Play(s, es[..|es| - 1]), es[|es| - 1]);
    }
  }

  // ---------------------------------------------------------------- rows only disappear

  /** Every row of `after` is a row of `before`, flags aside. */
  ghost predicate Shrinks(before: seq<File>, after: seq<File>) {
    forall r :: r in after ==> exists f :: f in before && f.id == r.id && KeyOf(f) == KeyOf(r)
  }

  lemma ShrinkKeepsCall(before: seq<File>, after: seq<File>, k: Call)
    requires Shrinks(before, after) && CallOk(before, k)
    ensures CallOk(after, k)
  {
  }

  lemma ShrinkKeepsKeyed(before: seq<File>, after: seq<File>)
    requires Shrinks(before, after) && AllKeyed(before)
    ensures AllKeyed(after)
  {
  }

  /** A step that only deletes or marks rows keeps the invariant. */
  lemma ShrinkStep(s: State, db: Tables)
    requires Inv(s) && Consistent(db) && Shrinks(s.db.files, db.files) && Distinct(db.files, KeyOf)
    ensures Inv(s.(db := db))
  {
    ShrinkKeepsKeyed(s.db.files, db.files);
    forall c | c in s.calls ensures CallOk(db.files, s.calls[c]) {
      ShrinkKeepsCall(s.db.files, db.files, s.calls[c]);
    }
    TableStep(s, db);
  }

  /** A step that changes nothing but the tables. */
  lemma TableStep(s: State, db: Tables)
    requires Inv(s) && Consistent(db) && FilesOk(db.files) && forall c :: c in s.calls ==> CallOk(db.files, s.calls[c])
    ensures Inv(s.(db := db))
  {
    SameHolders(s, s.(db := db));
    SameJobs(s, s.(db := db));
  }

  lemma SameJobs(s: State, r: State)
    requires OneJob(s) && forall c, n :: Job(r, c, n) ==> Job(s, c, n)
    ensures OneJob(r)
  {
  }

  lemma RejectShrinks<K>(files: seq<File>, key: File -> K, dead: set<K>)
    requires Distinct(files, KeyOf)
    ensures Shrinks(files, Reject(files, key, dead)) && Distinct(Reject(files, key, dead), KeyOf)
  {
    RejectDistinct(files, key, dead, KeyOf);
  }

  lemma MarkShrinks(files: seq<File>, ids: set<int>)
    requires Distinct(files, KeyOf)
    ensures Shrinks(files, Mark(files, ids)) && Distinct(Mark(files, ids), KeyOf)
  {
  }

  /** No statement of an operator ever adds a row to watched_files, renames included. */
  lemma AdminStep(s: State, st: Statement)
    requires Inv(s) && IsAdmin(st)
    ensures Inv(s.(db := Exec(s.db, st)))
  {
    var db := Exec(s.db, st);
    Integrity.ExecExact(s.db, st);
    if Allowed(s.db, st) && st.DeleteMachine? {
      var gone := if Has(s.db.machines, MachineName, st.name) then WatchersOn(s.db, st.name) else {};
      RejectShrinks(s.db.files, FileWatcher, gone);
    } else if Allowed(s.db, st) && st.DeleteWatcher? {
      RejectShrinks(s.db.files, FileWatcher, if Has(s.db.watchers, WatcherName, st.name) then {st.name} else {});
    } else {
      assert db.files == s.db.files;
    }
    ShrinkStep(s, db);
  }

  lemma RemoveStep(s: State, keys: set<FileKey>)
    requires Inv(s)
    ensures Inv(s.(db := s.db.(files := Reject(s.db.files, KeyOf, keys))))
  {
    DeleteConsistent(s.db, keys);
    RejectShrinks(s.db.files, KeyOf, keys);
    ShrinkStep(s, s.db.(files := Reject(s.db.files, KeyOf, keys)));
  }

  lemma DeleteConsistent(t: Tables, keys: set<FileKey>)
    requires Consistent(t)
    ensures Consistent(t.(files := Reject(t.files, KeyOf, keys)))
  {
    RejectDistinct(t.files, KeyOf, keys, FileId);
  }

  lemma MarkStep(s: State, ids: set<int>)
    requires Inv(s)
    ensures Inv(s.(db := Effect(s.db, MarkFiles(ids))))
  {
    Integrity.MarkExact(s.db, MarkFiles(ids));
    MarkShrinks(s.db.files, ids);
    ShrinkStep(s, Effect(s.db, MarkFiles(ids)));
  }

  // ---------------------------------------------------------------- rows appear

  /** Rows at distinct clean paths have distinct keys. */
  lemma RowsDistinct(rows: seq<File>, watcher: string, paths: seq<string>)
    requires |rows| == |paths| && NoRepeats(paths) && forall p :: p in paths ==> Paths.IsClean(p)
    requires forall i :: 0 <= i < |rows| ==> KeyOf(rows[i]) == PathKey(watcher, paths[i])
    ensures Distinct(rows, KeyOf)
  {
    forall i, j | 0 <= i < j < |rows| ensures KeyOf(rows[i]) != KeyOf(rows[j]) {
      assert paths[i] in paths && paths[j] in paths;
      Paths.PathKeyInjective(paths[i], paths[j]);
    }
  }

  /** New rows of one watcher at paths none of its rows has: still no duplicate. */
  lemma AddedDistinct(files: seq<File>, watcher: string, paths: seq<string>, flush: bool, now: Time)
    requires FilesOk(files) && CallOk(files, Walked(watcher, paths, []))
    ensures FilesOk(files + FreshRows(files, watcher, paths, flush, now))
  {
    var rows := FreshRows(files, watcher, paths, flush, now);
    forall i | 0 <= i < |paths| ensures Paths.IsClean(paths[i]) && paths[i] in paths {
    }
    FreshKeyed(files, watcher, paths, flush, now);
    RowsDistinct(rows, watcher, paths);
    forall f, j | f in files && 0 <= j < |rows| ensures KeyOf(f) != KeyOf(rows[j]) {
      if f.watcherName == watcher {
        assert FullPath(f) !in paths && paths[j] in paths;
        Paths.PathKeyInjective(FullPath(f), paths[j]);
      }
    }
    DistinctConcat(files, rows, KeyOf);
  }

  lemma DistinctConcat<T(!new), K>(a: seq<T>, b: seq<T>, key: T -> K)
    requires Distinct(a, key) && Distinct(b, key)
    requires forall x, j :: x in a && 0 <= j < |b| ==> key(x) != key(b[j])
    ensures Distinct(a + b, key)
  {
  }

  // ---------------------------------------------------------------- every event keeps the invariant

  /** A job moves on without touching the locks. */
  lemma MoveCall(s: State, c: int, k: Call)
    requires Inv(s) && c in s.calls && Inside(s.calls[c]) && Inside(k) && k.name == s.calls[c].name
    requires CallOk(s.db.files, k)
    ensures Inv(SetCall(s, c, k))
  {
    SameHolders(s, SetCall(s, c, k));
    SameJobs(s, SetCall(s, c, k));
  }

  /** A call without a job appears or moves on, and still has none. */
  lemma MoveOutside(s: State, c: int, k: Call)
    requires Inv(s) && (c in s.calls ==> !Inside(s.calls[c])) && !Inside(k)
    ensures Inv(SetCall(s, c, k))
  {
    SameHolders(s, SetCall(s, c, k));
    SameJobs(s, SetCall(s, c, k));
  }

  lemma AcquireStep(s: State, c: int, name: string)
    requires Inv(s) && c in s.calls && !Inside(s.calls[c]) && c !in s.free && name !in s.held && !RunsFree(s, name)
    ensures Inv(SetCall(s, c, Ready(name)).(held := s.held + {name}))
  {
    var r := SetCall(s, c, Ready(name)).(held := s.held + {name});
    AcquireLocks(s, c, name);
    forall d ensures !Job(s, d, name) {
      assert !Holds(s, d, name);
    }
    forall d, n ensures Job(r, d, n) <==> Job(s, d, n) || (d == c && n == name) {}
  }

  lemma EnterStep(s: State, c: int, name: string)
    requires Inv(s) && c !in s.calls && forall d :: !Job(s, d, name)
    ensures Inv(SetCall(s, c, Ready(name)).(free := s.free + {c}))
  {
    var r := SetCall(s, c, Ready(name)).(free := s.free + {c});
    SameHolders(s, r);
    forall d, n ensures Job(r, d, n) <==> Job(s, d, n) || (d == c && n == name) {}
  }

  lemma ReleaseStep(s: State, c: int)
    requires Inv(s) && c in s.calls && s.calls[c].Leaving?
    ensures Inv(NextRelease(s, c, s.calls[c]))
  {
    ReleaseLocks(s, c);
    SameJobs(s, NextRelease(s, c, s.calls[c]));
  }

  lemma ListStep(s: State, c: int, ok: bool)
    requires Inv(s) && c in s.calls && s.calls[c].Ready?
    ensures Inv(NextList(s, c, s.calls[c], ok))
  {
    var name := s.calls[c].name;
    if ok {
      var k := Listed(name, TrackedPaths(s.db.files, name), Select(s.db.files, FileWatcher, {name}));
      forall f | f in s.db.files && f.watcherName == name ensures FullPath(f) in k.tracked {
        TrackedMember(s.db.files, name, FullPath(f));
      }
      MoveCall(s, c, k);
    } else {
      MoveCall(s, c, Leaving(name));
    }
  }

  lemma WalkStep(s: State, c: int, accepted: set<string>, order: seq<string>)
    requires Inv(s) && c in s.calls && s.calls[c].Listed? && AllClean(accepted)
      && Lists(order, accepted - s.calls[c].tracked)
    ensures Inv(SetCall(s, c, Walked(s.calls[c].name, order, Stale(s.calls[c].rows, accepted))))
  {
    var k := Walked(s.calls[c].name, order, Stale(s.calls[c].rows, accepted));
    forall p | p in order ensures p in accepted && p !in s.calls[c].tracked {
      assert p in Elements(order);
    }
    MoveCall(s, c, k);
  }

  lemma AddStep(s: State, c: int, ok: bool, now: Time)
    requires Inv(s) && c in s.calls && s.calls[c].Walked?
    ensures Inv(NextAdd(s, c, s.calls[c], ok, now))
  {
    var k := s.calls[c];
    var insert := InsertFiles(NewRows(k.name, k.untracked, c in s.free, now));
    if k.untracked == [] {
      MoveCall(s, c, Saved(k.name, k.vanished));
    } else if !ok || !Allowed(s.db, insert) {
      MoveCall(s, c, Leaving(k.name));
    } else {
      MoveCall(s, c, Saved(k.name, k.vanished));
      Integrity.InsertFilesExact(s.db, insert);
      InsertIsAdd(s.db, k.name, k.untracked, c in s.free, now);
      InsertStep(SetCall(s, c, Saved(k.name, k.vanished)), k.name, k.untracked, c in s.free, now, c);
    }
  }

  /** Inserting the untracked paths of the one job of this name. */
  lemma InsertStep(s: State, name: string, paths: seq<string>, flush: bool, now: Time, c: int)
    requires Inv(s) && CallOk(s.db.files, Walked(name, paths, [])) && c in s.calls && s.calls[c].Saved?
      && s.calls[c].name == name
    requires Consistent(AfterAdd(s.db, name, paths, flush, now))
    ensures Inv(s.(db := AfterAdd(s.db, name, paths, flush, now)))
  {
    AddedDistinct(s.db.files, name, paths, flush, now);
    RowsStep(s, FreshRows(s.db.files, name, paths, flush, now), name, c);
  }

  lemma InsertIsAdd(t: Tables, name: string, paths: seq<string>, flush: bool, now: Time)
    ensures Effect(t, InsertFiles(NewRows(name, paths, flush, now))) == AfterAdd(t, name, paths, flush, now)
  {
  }

  lemma RowsStep(s: State, rows: seq<File>, name: string, c: int)
    requires Inv(s) && c in s.calls && s.calls[c].Saved? && s.calls[c].name == name
    requires Consistent(s.db.(files := s.db.files + rows)) && FilesOk(s.db.files + rows)
    requires forall r :: r in rows ==> r.watcherName == name
    ensures Inv(s.(db := s.db.(files := s.db.files + rows)))
  {
    AddKeepsCalls(s, rows, name, c);
    TableStep(s, s.db.(files := s.db.files + rows));
  }

  /** The rows of the one job of a name do not concern any other job. */
  lemma AddKeepsCalls(s: State, rows: seq<File>, name: string, c: int)
    requires Inv(s) && c in s.calls && s.calls[c].Saved? && s.calls[c].name == name
    requires forall r :: r in rows ==> r.watcherName == name
    ensures forall d :: d in s.calls ==> CallOk(s.db.files + rows, s.calls[d])
  {
    forall d | d in s.calls ensures CallOk(s.db.files + rows, s.calls[d]) {
      if Inside(s.calls[d]) && d != c {
        assert Job(s, c, name) && Job(s, d, s.calls[d].name);
      }
    }
  }

  lemma FlushListStep(s: State, j: int, name: string)
    requires Inv(s) && j !in s.flushes
    ensures Inv(SetFlush(s, j, Copying(PendingFor(s.db, name), 0)))
  {
    var pending := PendingFor(s.db, name);
    forall p, q | p in pending && q in pending && p.fileId == q.fileId ensures p == q {
      PendingUnique(s.db, name, p, q);
    }
    SettleFlush(s, j, Copying(pending, 0));
  }

  /** A flush job moves on; nothing else does. */
  lemma SettleFlush(s: State, j: int, f: FlushJob)
    requires Inv(s) && FlushOk(s.copies, j, f)
    ensures Inv(SetFlush(s, j, f))
  {
    SameHolders(s, SetFlush(s, j, f));
    SameJobs(s, SetFlush(s, j, f));
  }

  lemma PendingRowOf(t: Tables, name: string, p: PendingFlush, r: File)
    requires Consistent(t) && p in PendingFor(t, name) && r in t.files && r.id == p.fileId
    ensures Describes(t, r, p) && KeyOfPending(p) == KeyOf(r)
  {
    PendingForExact(t, name, p);
    var f :| f in t.files && f.watcherName == name && Waiting(t, f) && Describes(t, f, p);
    Integrity.SameRow(t.files, FileId, f, r);
  }

  lemma PendingUnique(t: Tables, name: string, p: PendingFlush, q: PendingFlush)
    requires Consistent(t) && p in PendingFor(t, name) && q in PendingFor(t, name) && p.fileId == q.fileId
    ensures p == q
  {
    PendingForExact(t, name, p);
    var f :| f in t.files && f.watcherName == name && Waiting(t, f) && Describes(t, f, p);
    PendingRowOf(t, name, q, f);
    PendingMachinesAgree(t, name, p, q);
  }

  lemma FlushStep(s: State, j: int, e: Event)
    requires Inv(s) && j in s.flushes && s.flushes[j].Copying? && (e.FlushCopy? || e.FlushMark?)
    ensures Inv(NextFlush(s, j, s.flushes[j], e))
  {
    var r := NextFlush(s, j, s.flushes[j], e);
    if e.FlushMark? {
      MarkStep(s, PendingIds(s.flushes[j].pending));
    }
    SameHolders(s, r);
    SameJobs(s, r);
  }

  lemma NextRemoveIs(s: State, c: int, k: Call, ok: bool)
    requires k.Saved?
    ensures var left := SetCall(s, c, Leaving(k.name));
            NextRemove(s, c, k, ok) ==
            if k.vanished == [] || !ok then left
            else left.(db := left.db.(files := Reject(left.db.files, KeyOf, PathKeys(k.name, k.vanished))))
  {
  }

  lemma RemovalStep(s: State, c: int, ok: bool)
    requires Inv(s) && c in s.calls && s.calls[c].Saved?
    ensures Inv(NextRemove(s, c, s.calls[c], ok))
  {
    var k := s.calls[c];
    var left := SetCall(s, c, Leaving(k.name));
    MoveCall(s, c, Leaving(k.name));
    RemoveStep(left, PathKeys(k.name, k.vanished));
    NextRemoveIs(s, c, k, ok);
  }

  lemma StartStep(s: State, e: Event)
    requires Inv(s) && FreeOk(s) && Orderly(s, e) && (e.Begin? || e.Acquire? || e.Enter?)
    ensures Inv(Next(s, e))
  {
    if Next(s, e) != s {
      match e
      case Begin(c, name) => MoveOutside(s, c, if Known(s.db, name) then Looked(name) else Closed);
      case Acquire(c) =>
        if s.calls[c].name in s.held { MoveOutside(s, c, Closed); } else { AcquireStep(s, c, s.calls[c].name); }
      case Enter(c, name) => EnterStep(s, c, name);
    }
  }

  lemma JobStep(s: State, e: Event)
    requires Inv(s) && Orderly(s, e) && (e.List? || e.Walk? || e.Add? || e.Remove? || e.Release?)
    ensures Inv(Next(s, e))
  {
    if Next(s, e) != s {
      match e
      case List(c, ok) => ListStep(s, c, ok);
      case Walk(c, accepted, order) => WalkStep(s, c, accepted, order);
      case Add(c, ok, now) => AddStep(s, c, ok, now);
      case Remove(c, ok) => RemovalStep(s, c, ok);
      case Release(c) => ReleaseStep(s, c);
    }
  }

  lemma FlushListIs(s: State, j: int, name: string, ok: bool)
    ensures Next(s, FlushList(j, name, ok)) ==
            if j in s.flushes then s else SetFlush(s, j, FirstListing(s.db, name, ok))
  {
  }

  lemma FlushListEvent(s: State, j: int, name: string, ok: bool)
    requires Inv(s)
    ensures Inv(Next(s, FlushList(j, name, ok)))
  {
    FlushListIs(s, j, name, ok);
    if j !in s.flushes {
      if FirstListing(s.db, name, ok) == FlushOver {
        SettleFlush(s, j, FlushOver);
      } else {
        FlushListStep(s, j, name);
      }
    }
  }

  lemma FlushEventStep(s: State, e: Event)
    requires Inv(s) && (e.FlushList? || e.FlushCopy? || e.FlushMark?)
    ensures Inv(Next(s, e))
  {
    if e.FlushList? {
      FlushListEvent(s, e.job, e.name, e.ok);
    } else if Next(s, e) != s {
      FlushStep(s, e.job, e);
    }
  }

  /** The invariant survives every orderly event. */
  lemma InvStep(s: State, e: Event)
    requires Inv(s) && FreeOk(s) && Orderly(s, e)
    ensures Inv(Next(s, e))
  {
    if e.Begin? || e.Acquire? || e.Enter? {
      StartStep(s, e);
    } else if e.FlushList? || e.FlushCopy? || e.FlushMark? {
      FlushEventStep(s, e);
    } else if e.Admin? {
      if IsAdmin(e.s) {
        AdminStep(s, e.s);
      }
    } else {
      JobStep(s, e);
    }
  }

  lemma {:induction false} InvAlways(s: State, es: seq<Event>)
    requires Initial(s) && AllOrderly(s, es)
    ensures Inv(Play(s, es))
  {
    if es != [] {
      var front := es[..|es| - 1];
      assert forall i :: 0 <= i < |front| ==> front[..i] == es[..i];
      InvAlways(s, front);
      LocksAlways(s, front);
      InvStep(Play(s, front), es[|es| - 1]);
    }
  }
}
