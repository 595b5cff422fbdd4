/**
  A sync call on values: which checks come first, what reaches the database, and what the caller is told.
 */
module Calls {
  import opened GoSet
  import opened Schema
  import opened Streaming
  import opened Sync
  import opened SyncLaws
  import opened SyncRows
  import opened Walk
  import Paths

  datatype Code = InvalidArgument | NotFound | AlreadyExists | Internal

  datatype Reply = Replied(response: Response) | Refused(code: Code)

  /** What a machine and the runtime contribute to one call. `dirs` bounds what walkers can show. */
  datatype World = World(walks: string -> seq<Entry>, ignoreFile: IgnoreFile, dirs: string -> set<string>, env: Env,
                         reportOrder: set<string> -> seq<string>)

  ghost predicate Sane(world: World) {
    && Orders(world.env.order) && Orders(world.reportOrder)
    && forall root :: Bounded(world.walks, root, world.dirs(root))
  }

  ghost function AcceptedAt(world: World, root: string): set<string> {
    AcceptedSet(world.walks, LoadIgnore(world.ignoreFile), root, world.dirs(root))
  }

  ghost function ResponseOf(r: SyncResult, world: World): Response {
    Response(r.addedCount, r.removedCount, world.reportOrder(r.addedFiles), r.removedFiles)
  }

  /** A sync call on values: which checks come first, and what reaches the database. */
  ghost function SyncCall(t: Tables, held: set<string>, name: string, world: World): (Tables, Reply) {
    if name == "" then (t, Refused(InvalidArgument))
    else if !Has(t.watchers, WatcherName, name) then (t, Refused(NotFound))
    else
      var w := Select(t.watchers, WatcherName, {name})[0];
      if !Has(t.machines, MachineName, w.machineName) then (t, Refused(Internal))
      else if name in held then (t, Refused(AlreadyExists))
      else
        var (t', r) := SyncOutcome(t, name, AcceptedAt(world, w.sourcePath), false, world.env);
        (t', if r.Ok? then Replied(ResponseOf(r.value, world)) else Refused(Internal))
  }

  // ---------------------------------------------------------------- what a caller is told

  ghost predicate HasWatcher(t: Tables, name: string) {
    exists w :: w in t.watchers && w.name == name
  }

  predicate NothingFails(env: Env) {
    env.dialOk && env.listOk && env.addOk && env.removeOk
  }

  /** The refusals, when there is none, and what each leaves of the database. */
  ghost predicate Answers(t: Tables, held: set<string>, name: string, env: Env, t': Tables, reply: Reply) {
    && (reply == Refused(InvalidArgument) <==> name == "")
    && (reply == Refused(NotFound) <==> name != "" && !HasWatcher(t, name))
    && (reply == Refused(AlreadyExists) ==> name in held)
    && (name in held ==> reply.Refused? && t' == t)
    && (Consistent(t) && name != "" && HasWatcher(t, name) && name in held ==> reply == Refused(AlreadyExists))
    && (reply.Refused? && reply.code != Internal ==> t' == t)
    && (Consistent(t) && name != "" && HasWatcher(t, name) && name !in held && NothingFails(env) ==> reply.Replied?)
  }

  /**
    A response counts the files it lists. Those added were seen by the walk and had no row, those removed had a row
    and were not seen; if rows and walked paths are in clean form, that is the change in the rows of the watcher.
   */
  ghost predicate Reports(response: Response, world: World, t: Tables, t': Tables, name: string) {
    && response.addedCount == ToInt32(|response.addedFiles|) && NoRepeats(response.addedFiles)
    && response.removedCount == ToInt32(|response.removedFiles|)
    && exists w :: w in t.watchers && w.name == name && ReportsWalk(response, world, t, t', w)
  }

  ghost predicate ReportsWalk(response: Response, world: World, t: Tables, t': Tables, w: Watcher) {
    && (forall p :: p in response.addedFiles <==>
          Seen(world.walks, world.ignoreFile, w.sourcePath, p) && !HasRow(t.files, w.name, p))
    && (forall p :: p in response.removedFiles <==>
          !Seen(world.walks, world.ignoreFile, w.sourcePath, p) && HasRow(t.files, w.name, p))
    && (AllKeyed(t.files) && AllClean(AcceptedAt(world, w.sourcePath)) ==>
          Changes(response, t.files, t'.files, w.name) && RowsRight(world, t, t', w))
  }

  /**
    Old rows stay unless they are the watcher's and were not seen; new rows are unflushed, for paths
    seen without a row.
   */
  ghost predicate RowsRight(world: World, t: Tables, t': Tables, w: Watcher) {
    && t'.machines == t.machines && t'.watchers == t.watchers && t'.redirections == t.redirections
    && (forall f :: f in t.files ==>
          (f in t'.files <==> f.watcherName != w.name
                              || Seen(world.walks, world.ignoreFile, w.sourcePath, Paths.Join(f.filePath, f.fileName))))
    && (forall f :: f in t'.files && f !in t.files ==>
          && f.watcherName == w.name && !f.flushed && f.detectedAt == world.env.now
          && Seen(world.walks, world.ignoreFile, w.sourcePath, Paths.Join(f.filePath, f.fileName))
          && !HasRow(t.files, w.name, Paths.Join(f.filePath, f.fileName)))
  }

  /** The listed files are the change in the paths the watcher's rows stand for. */
  ghost predicate Changes(response: Response, before: seq<File>, after: seq<File>, name: string) {
    && (forall p :: p in response.addedFiles <==> HasRow(after, name, p) && !HasRow(before, name, p))
    && (forall p :: p in response.removedFiles <==> HasRow(before, name, p) && !HasRow(after, name, p))
  }

  lemma SeenIsAccepted(world: World, root: string)
    requires Sane(world)
    ensures forall p :: p in AcceptedAt(world, root) <==> Seen(world.walks, world.ignoreFile, root, p)
  {
    AcceptedSetExact(world.walks, LoadIgnore(world.ignoreFile), root, world.dirs(root));
    forall p ensures p in AcceptedAt(world, root) <==> Seen(world.walks, world.ignoreFile, root, p) {
      AcceptsExactly(world.walks, world.ignoreFile, root, p);
    }
  }

  lemma OutcomeRows(t: Tables, w: Watcher, world: World)
    requires Sane(world) && AllKeyed(t.files) && AllClean(AcceptedAt(world, w.sourcePath))
    ensures var (t', r) := SyncOutcome(t, w.name, AcceptedAt(world, w.sourcePath), false, world.env);
            r.Ok? ==> RowsRight(world, t, t', w)
  {
    var accepted := AcceptedAt(world, w.sourcePath);
    if SyncOutcome(t, w.name, accepted, false, world.env).1.Ok? {
      SyncByRows(t, w.name, accepted, false, world.env);
      SeenIsAccepted(world, w.sourcePath);
    }
  }

  lemma CallAnswers(t: Tables, held: set<string>, name: string, world: World)
    ensures var call := SyncCall(t, held, name, world); Answers(t, held, name, world.env, call.0, call.1)
  {
  }

  /** The response lists the files of the result. */
  lemma Listed(r: SyncResult, world: World)
    requires Sane(world)
    ensures var response := ResponseOf(r, world);
            && response.addedCount == r.addedCount && response.removedCount == r.removedCount
            && |response.addedFiles| == |r.addedFiles| && NoRepeats(response.addedFiles)
            && (forall p :: p in response.addedFiles <==> p in r.addedFiles) && response.removedFiles == r.removedFiles
  {
    var files := world.reportOrder(r.addedFiles);
    assert Lists(files, r.addedFiles);
    ListLength(files, r.addedFiles);
    forall p ensures p in files <==> p in r.addedFiles {
      assert p in files <==> p in Elements(files);
    }
  }

  lemma ChangesRows(t: Tables, name: string, accepted: set<string>, env: Env)
    requires Orders(env.order) && AllKeyed(t.files) && AllClean(accepted)
    ensures var (t', r) := SyncOutcome(t, name, accepted, false, env);
            r.Ok? ==>
              && (forall p :: p in r.value.addedFiles <==> HasRow(t'.files, name, p) && !HasRow(t.files, name, p))
              && (forall p :: p in r.value.removedFiles <==> HasRow(t.files, name, p) && !HasRow(t'.files, name, p))
  {
    var (t', r) := SyncOutcome(t, name, accepted, false, env);
    if r.Ok? {
      ReportIsDifference(t, name, accepted, false, env);
      forall p
        ensures HasRow(t'.files, name, p) <==> p in TrackedPaths(t'.files, name)
        ensures HasRow(t.files, name, p) <==> p in TrackedPaths(t.files, name)
      {
        TrackedMember(t'.files, name, p);
        TrackedMember(t.files, name, p);
      }
      assert forall p :: p in r.value.removedFiles <==> p in Elements(r.value.removedFiles);
    }
  }

  /** What a successful run reports, told by the walk and the rows. */
  lemma ResultSees(t: Tables, w: Watcher, world: World)
    requires Sane(world)
    ensures var r := SyncOutcome(t, w.name, AcceptedAt(world, w.sourcePath), false, world.env).1;
            r.Ok? ==>
              && r.value.addedCount == ToInt32(|r.value.addedFiles|)
                   && r.value.removedCount == ToInt32(|r.value.removedFiles|)
              && (forall p :: p in r.value.addedFiles <==>
                    Seen(world.walks, world.ignoreFile, w.sourcePath, p) && !HasRow(t.files, w.name, p))
              && (forall p :: p in r.value.removedFiles <==>
                    !Seen(world.walks, world.ignoreFile, w.sourcePath, p) && HasRow(t.files, w.name, p))
  {
    OutcomeSees(world.walks, world.ignoreFile, w.sourcePath, world.dirs(w.sourcePath), t, w.name, false, world.env);
  }

  /** A result and its response say the same. */
  lemma ResponseReports(r: SyncResult, world: World, t: Tables, t': Tables, w: Watcher)
    requires Sane(world) && w in t.watchers
    requires r.addedCount == ToInt32(|r.addedFiles|) && r.removedCount == ToInt32(|r.removedFiles|)
    requires forall p :: p in r.addedFiles <==>
               Seen(world.walks, world.ignoreFile, w.sourcePath, p) && !HasRow(t.files, w.name, p)
    requires forall p :: p in r.removedFiles <==>
               !Seen(world.walks, world.ignoreFile, w.sourcePath, p) && HasRow(t.files, w.name, p)
    requires AllKeyed(t.files) && AllClean(AcceptedAt(world, w.sourcePath)) ==>
               && (forall p :: p in r.addedFiles <==> HasRow(t'.files, w.name, p) && !HasRow(t.files, w.name, p))
               && (forall p :: p in r.removedFiles <==> HasRow(t.files, w.name, p) && !HasRow(t'.files, w.name, p))
               && RowsRight(world, t, t', w)
    ensures Reports(ResponseOf(r, world), world, t, t', w.name)
  {
    Listed(r, world);
    assert ReportsWalk(ResponseOf(r, world), world, t, t', w);
  }

  lemma OutcomeReports(t: Tables, w: Watcher, world: World)
    requires Sane(world) && w in t.watchers
    ensures var (t', r) := SyncOutcome(t, w.name, AcceptedAt(world, w.sourcePath), false, world.env);
            r.Ok? ==> Reports(ResponseOf(r.value, world), world, t, t', w.name)
  {
    var accepted := AcceptedAt(world, w.sourcePath);
    var (t', r) := SyncOutcome(t, w.name, accepted, false, world.env);
    if r.Ok? {
      ResultSees(t, w, world);
      if AllKeyed(t.files) && AllClean(accepted) {
        ChangesRows(t, w.name, accepted, world.env);
        OutcomeRows(t, w, world);
      }
      ResponseReports(r.value, world, t, t', w);
    }
  }

  lemma CallReports(t: Tables, held: set<string>, name: string, world: World)
    requires Sane(world)
    ensures var call := SyncCall(t, held, name, world);
            call.1.Replied? ==> Reports(call.1.response, world, t, call.0, name)
  {
    if SyncCall(t, held, name, world).1.Replied? {
      var w := Select(t.watchers, WatcherName, {name})[0];
      assert w in Select(t.watchers, WatcherName, {name});
      OutcomeReports(t, w, world);
    }
  }

  /** A call that gets past its checks is the sync of its watcher. */
  lemma CallRuns(t: Tables, held: set<string>, w: Watcher, world: World)
    requires w.name != "" && Has(t.watchers, WatcherName, w.name) && w == Select(t.watchers, WatcherName, {w.name})[0]
    requires Has(t.machines, MachineName, w.machineName) && w.name !in held
    ensures var (t', r) := SyncOutcome(t, w.name, AcceptedAt(world, w.sourcePath), false, world.env);
            SyncCall(t, held, w.name, world)
              == (t', if r.Ok? then Replied(ResponseOf(r.value, world)) else Refused(Internal))
  {
  }
}
