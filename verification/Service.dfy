/**
  The two sync entry points: one try-lock per watcher name around a sync job, with a single response
  or with a stream of events.
 */
module Service {
  import opened Schema
  import opened Database
  import opened Locks
  import opened Streaming
  import opened Sync
  import opened Calls

  class WatcherService {
    const db: DB
    const syncLocks: SyncLocks

    constructor (db: DB)
      ensures this.db == db && fresh(syncLocks) && syncLocks.Held() == {}
    {
      this.db := db;
      syncLocks := new SyncLocks();
    }

    method TryAcquireSyncLock(name: string) returns (ok: bool)
      modifies syncLocks
      ensures ok == (name !in old(syncLocks.Held()))
      ensures syncLocks.Held() == old(syncLocks.Held()) + {name}
    {
      ok := syncLocks.TryLock(name);
    }

    /** The checks before the lock: the watcher and its machine must exist. */
    method FindWatcher(name: string) returns (w: Result<Watcher>, code: Code)
      ensures w.Ok? ==> name != "" && Has(db.t.watchers, WatcherName, name) && w.value.name == name
      ensures w.Ok? ==> w.value == Select(db.t.watchers, WatcherName, {name})[0]
      ensures w.Ok? ==> Has(db.t.machines, MachineName, w.value.machineName)
      ensures w.Err? ==> forall held, world :: SyncCall(db.t, held, name, world) == (db.t, Refused(code))
    {
      code := InvalidArgument;
      if name == "" {
        return Err("name is required"), code;
      }
      w := db.GetWatcherByName(name);
      if w.Err? {
        return w, NotFound;
      }
      var machine := db.GetMachineByName(w.value.machineName);
      if machine.Err? {
        return Err("machine not found"), Internal;
      }
    }

    /**
      Every exit leaves the locks as they were, and a rejected call leaves the database alone. A call for a name
      whose lock is held is refused as such; one that succeeds reports the files and their number.
     */
    method SyncWatcher(name: string, world: World) returns (reply: Reply)
      requires Sane(world)
      modifies syncLocks, db
      ensures (db.t, reply) == SyncCall(old(db.t), old(syncLocks.Held()), name, world)
      ensures Answers(old(db.t), old(syncLocks.Held()), name, world.env, db.t, reply)
      ensures reply.Replied? ==> Reports(reply.response, world, old(db.t), db.t, name)
      ensures syncLocks.Held() == old(syncLocks.Held())
    {
      reply := HandleSync(name, world);
      CallAnswers(old(db.t), old(syncLocks.Held()), name, world);
      CallReports(old(db.t), old(syncLocks.Held()), name, world);
    }

    /** The steps of the call. */
    method HandleSync(name: string, world: World) returns (reply: Reply)
      requires Sane(world)
      modifies syncLocks, db
      ensures (db.t, reply) == SyncCall(old(db.t), old(syncLocks.Held()), name, world)
      ensures syncLocks.Held() == old(syncLocks.Held())
    {
      var w, code := FindWatcher(name);
      if w.Err? {
        return Refused(code);
      }
      var ok := TryAcquireSyncLock(name);
      if !ok {
        return Refused(AlreadyExists);
      }
      CallRuns(db.t, old(syncLocks.Held()), w.value, world);
      var job := new SyncJob(w.value, db, world.walks, world.ignoreFile, world.dirs(w.value.sourcePath), null,
                             syncLocks);
      var r := job.Run(false, world.env);
      syncLocks.Unlock(name);
      if r.Err? {
        return Refused(Internal);
      }
      return Replied(Response(r.value.addedCount, r.value.removedCount, world.reportOrder(r.value.addedFiles),
                              r.value.removedFiles));
    }

    /** The final LOG and the RESULT: a RESULT was sent exactly when both sends succeed. */
    method SendResult(response: Response, stream: Stream) returns (sent: bool)
      modifies stream
      ensures if sent then EndsWith(old(stream.sent), stream.sent, ResultEvent(response))
              else OnlyLogs(old(stream.sent), stream.sent)
    {
      sent := stream.Send(Log("sync complete"));
      if sent {
        ghost var logs := stream.sent;
        sent := stream.Send(ResultEvent(response));
        assert OnlyLogs(old(stream.sent), logs);
      }
    }

    /**
      The streaming variant, under any pattern of failing sends: the database changes exactly as in
      SyncWatcher. When it succeeds the client's trace ends with one RESULT, the unary response, after
      LOG events only; when it does not, no RESULT was sent.
     */
    method StreamSyncWatcher(name: string, world: World, stream: Stream) returns (failure: Option<Code>)
      requires Sane(world)
      modifies syncLocks, db, stream
      ensures var call := SyncCall(old(db.t), old(syncLocks.Held()), name, world);
              && db.t == call.0
              && (call.1.Refused? ==> failure == Some(call.1.code))
              && (call.1.Replied? && failure.Some? ==> failure == Some(Internal))
              && if failure.None? then
                   EndsWith(old(stream.sent), stream.sent, ResultEvent(call.1.response))
                 else OnlyLogs(old(stream.sent), stream.sent)
      ensures name == "" <==> failure == Some(InvalidArgument)
      ensures name != "" && !HasWatcher(old(db.t), name) <==> failure == Some(NotFound)
      ensures failure == Some(AlreadyExists) ==> name in old(syncLocks.Held())
      ensures name in old(syncLocks.Held()) ==> failure.Some? && db.t == old(db.t)
      ensures Consistent(old(db.t)) && name != "" && HasWatcher(old(db.t), name) && name in old(syncLocks.Held()) ==>
        failure == Some(AlreadyExists)
      ensures failure.None? ==> exists response ::
        EndsWith(old(stream.sent), stream.sent, ResultEvent(response))
          && Reports(response, world, old(db.t), db.t, name)
      ensures syncLocks.Held() == old(syncLocks.Held())
    {
      failure := HandleStream(name, world, stream);
      CallAnswers(old(db.t), old(syncLocks.Held()), name, world);
      CallReports(old(db.t), old(syncLocks.Held()), name, world);
    }

    /** The steps of the call. */
    method HandleStream(name: string, world: World, stream: Stream) returns (failure: Option<Code>)
      requires Sane(world)
      modifies syncLocks, db, stream
      ensures var call := SyncCall(old(db.t), old(syncLocks.Held()), name, world);
              && db.t == call.0
              && (call.1.Refused? ==> failure == Some(call.1.code))
              && (call.1.Replied? && failure.Some? ==> failure == Some(Internal))
              && if failure.None? then
                   EndsWith(old(stream.sent), stream.sent, ResultEvent(call.1.response))
                 else OnlyLogs(old(stream.sent), stream.sent)
      ensures syncLocks.Held() == old(syncLocks.Held())
    {
      var w, code := FindWatcher(name);
      if w.Err? {
        return Some(code);
      }
      var ok := TryAcquireSyncLock(name);
      if !ok {
        return Some(AlreadyExists);
      }
      CallRuns(db.t, old(syncLocks.Held()), w.value, world);
      failure := StreamJob(w.value, world, stream);
      syncLocks.Unlock(name);
    }

    /** What happens between acquiring and releasing the lock: the job, then its result. */
    method StreamJob(w: Watcher, world: World, stream: Stream) returns (failure: Option<Code>)
      requires Sane(world) && w.name in syncLocks.Held()
      modifies db, stream
      ensures var (t', r) := SyncOutcome(old(db.t), w.name, AcceptedAt(world, w.sourcePath), false, world.env);
              && db.t == t' && (failure.Some? ==> failure == Some(Internal)) && (r.Err? ==> failure.Some?)
              && if failure.None? then EndsWith(old(stream.sent), stream.sent, ResultEvent(ResponseOf(r.value, world)))
                 else OnlyLogs(old(stream.sent), stream.sent)
    {
      var job := new SyncJob(w, db, world.walks, world.ignoreFile, world.dirs(w.sourcePath), stream, syncLocks);
      var r := job.Run(false, world.env);
      if r.Err? {
        return Some(Internal);
      }
      var response := Response(r.value.addedCount, r.value.removedCount,
                               world.reportOrder(r.value.addedFiles), r.value.removedFiles);
      ghost var before := stream.sent;
      var sent := SendResult(response, stream);
      LogsCompose(old(stream.sent), before, stream.sent, ResultEvent(response), sent);
      return if sent then None else Some(Internal);
    }
  }
}
