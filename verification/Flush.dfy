/**
  The flush job: copy every pending file through a pool of cached connections, then mark all listed
  rows in one statement.

  Any remote operation may fail; a failure is chosen freely inside the operation that fails.
 */
module Flush {
  import opened GoSet
  import opened Schema
  import opened Streaming
  import opened Database
  import opened PendingView
  import opened SyncLaws
  import opened Transfer
  import opened Delivery
  import Paths

  /**
    The files of every host, and the host each set of connection details leads to. `dials` records every
    connection ever opened, in order.
   */
  class Network {
    const host: Hosts
    var files: Files
    ghost var dials: seq<SFTPClient>

    constructor (host: Hosts, files: Files)
      ensures this.host == host && this.files == files && dials == []
    {
      this.host, this.files, this.dials := host, files, [];
    }
  }

  /** An open connection to one machine. */
  class SFTPClient {
    const machine: MachineDetails
    const net: Network
    var closes: nat

    constructor (machine: MachineDetails, net: Network)
      ensures this.machine == machine && this.net == net && closes == 0
    {
      this.machine, this.net, closes := machine, net, 0;
    }

    function At(path: string): Place {
      Place(net.host(machine), path)
    }

    method Stat(path: string) returns (r: Result<FileData>)
      ensures r.Ok? ==> At(path) in net.files && r.value == net.files[At(path)]
    {
      var fails: bool := *;
      if fails || At(path) !in net.files {
        return Err("stat");
      }
      return Ok(net.files[At(path)]);
    }

    /** Creates the file, or empties the one that is there. */
    method Create(path: string, now: Time) returns (ok: bool)
      modifies net`files
      ensures ok ==> At(path) in net.files && net.files[At(path)].content == ""
      ensures ok ==> net.files == old(net.files)[At(path) := net.files[At(path)]]
      ensures !ok ==> net.files == old(net.files)
    {
      ok := *;
      if ok {
        var mode := if At(path) in net.files then net.files[At(path)].mode else 0x1B6;
        net.files := net.files[At(path) := FileData("", mode, now)];
      }
    }

    /** Writes a prefix of `data`, all of it when it succeeds. */
    method Write(path: string, data: string) returns (ok: bool)
      requires At(path) in net.files
      modifies net`files
      ensures At(path) in net.files && (ok ==> net.files[At(path)].content == data)
      ensures net.files == old(net.files)[At(path) := net.files[At(path)]]
    {
      ok := *;
      var n :| 0 <= n <= |data|;
      net.files := net.files[At(path) := net.files[At(path)].(content := if ok then data else data[..n])];
    }

    method Chmod(path: string, mode: int) returns (ok: bool)
      requires At(path) in net.files
      modifies net`files
      ensures net.files ==
              if ok then old(net.files)[At(path) := old(net.files)[At(path)].(mode := mode)] else old(net.files)
    {
      ok := *;
      if ok {
        net.files := net.files[At(path) := net.files[At(path)].(mode := mode)];
      }
    }

    method Chtimes(path: string, modTime: Time) returns (ok: bool)
      requires At(path) in net.files
      modifies net`files
      ensures net.files ==
              if ok then old(net.files)[At(path) := old(net.files)[At(path)].(modTime := modTime)] else old(net.files)
    {
      ok := *;
      if ok {
        net.files := net.files[At(path) := net.files[At(path)].(modTime := modTime)];
      }
    }

    method Close()
      modifies this`closes
      ensures closes == old(closes) + 1
    {
      closes := closes + 1;
    }
  }

  /**
    Copies one file with its mode and modification time. Directories are not modelled, so creating the
    parent directory is a step that may fail and changes nothing here.
   */
  method TransferFile(srcClient: SFTPClient, dstClient: SFTPClient, src: string, dst: string, now: Time)
    returns (ok: bool)
    requires srcClient.net == dstClient.net
    modifies srcClient.net`files
    ensures ok ==> srcClient.At(src) in old(srcClient.net.files)
                   && srcClient.net.files == CopyFile(old(srcClient.net.files), srcClient.At(src), dstClient.At(dst))
    ensures forall x :: x != dstClient.At(dst) ==> Same(srcClient.net.files, old(srcClient.net.files), x)
  {
    var info := srcClient.Stat(src);
    if info.Err? {
      return false;
    }
    var made: bool := *;
    if !made {
      return false;
    }
    var isOpen: bool := *;
    if !isOpen {
      return false;
    }
    ok := dstClient.Create(dst, now);
    if !ok {
      return;
    }
    ok := FillFile(srcClient, dstClient, src, dst, info.value);
  }

  /** What follows once both files are open: the content, then the mode, then the times. */
  method FillFile(srcClient: SFTPClient, dstClient: SFTPClient, src: string, dst: string, info: FileData)
    returns (ok: bool)
    requires srcClient.net == dstClient.net
    requires srcClient.At(src) in srcClient.net.files && dstClient.At(dst) in srcClient.net.files
    modifies srcClient.net`files
    ensures var was, place := old(srcClient.net.files), dstClient.At(dst);
            && (ok ==>
                  srcClient.net.files ==
                  was[place := FileData(was[srcClient.At(src)].content, info.mode, info.modTime)])
            && place in srcClient.net.files && srcClient.net.files == was[place := srcClient.net.files[place]]
  {
    ok := dstClient.Write(dst, srcClient.net.files[srcClient.At(src)].content);
    if !ok {
      return;
    }
    ok := dstClient.Chmod(dst, info.mode);
    if !ok {
      return;
    }
    ok := dstClient.Chtimes(dst, info.modTime);
  }

  /** Opens a connection, or fails. */
  method Dial(machine: MachineDetails, net: Network) returns (c: SFTPClient?)
    modifies net`dials
    ensures c != null ==> fresh(c) && c.machine == machine && c.net == net && c.closes == 0
    ensures net.dials == old(net.dials) + if c == null then [] else [c]
  {
    var fails: bool := *;
    c := null;
    if !fails {
      c := new SFTPClient(machine, net);
      net.dials := net.dials + [c];
    }
  }

  /** A connection under this machine's name was made with these very details. */
  ghost predicate Agrees(dialled: seq<SFTPClient>, machine: MachineDetails) {
    forall c :: c in dialled && c.machine.name == machine.name ==> c.machine == machine
  }

  /** Open connections, cached by machine name. `dialled` lists those opened since the pool was made. */
  class ClientPool {
    const net: Network
    var clients: map<string, SFTPClient>
    ghost const before: seq<SFTPClient>
    ghost var dialled: seq<SFTPClient>

    /**
      Every connection opened on the network since the pool was made is cached under its machine's name, so no
      machine was dialled twice.
     */
    ghost predicate Valid()
      reads this, net`dials
    {
      && net.dials == before + dialled
      && (forall n :: n in clients ==> clients[n] in dialled && clients[n].machine.name == n)
      && (forall c :: c in dialled ==> c.machine.name in clients && clients[c.machine.name] == c && c.net == net)
      && NoMachineTwice(dialled)
    }

    constructor (net: Network)
      ensures this.net == net && before == net.dials && Valid() && dialled == []
    {
      this.net, clients, before, dialled := net, map[], net.dials, [];
    }

    /** A client for the named machine: the cached one, or one just dialled with these details. */
    method Get(machine: MachineDetails) returns (c: SFTPClient?)
      requires Valid()
      modifies this, net`dials
      ensures Valid()
      ensures c != null ==> c in dialled && c.net == net && c.machine.name == machine.name
      ensures c != null && Agrees(old(dialled), machine) ==> c.machine == machine
      ensures forall d :: d in old(dialled) ==> d in dialled
      ensures forall d :: d in dialled && d !in old(dialled) ==> fresh(d) && d.closes == 0 && d.machine == machine
    {
      if machine.name in clients {
        return clients[machine.name];
      }
      c := Dial(machine, net);
      if c == null {
        return;
      }
      MoreMachines(dialled, c);
      clients := clients[machine.name := c];
      dialled := dialled + [c];
    }

    /** Closes every dialled client once. */
    method CloseAll()
      requires Valid()
      modifies set c | c in dialled :: c`closes
      ensures forall c :: c in dialled ==> c.closes == old(c.closes) + 1
    {
      var todo := clients.Keys;
      while todo != {}
        invariant todo <= clients.Keys
        invariant forall c :: c in dialled ==> c.closes == old(c.closes) + if c.machine.name in todo then 0 else 1
      {
        var n :| n in todo;
        clients[n].Close();
        todo := todo - {n};
      }
    }
  }

  // ---------------------------------------------------------------- the job

  /** What a successful flush does: every listed file copied in order, every listed row marked. */
  ghost predicate Flushed(host: Hosts, t: Tables, t': Tables, d: Files, d': Files, watcher: string) {
    var ps := PendingFor(t, watcher);
    if ps == [] then t' == t && d' == d
    else Feasible(host, d, ps) && d' == CopyAll(host, d, ps) && t' == Effect(t, MarkFiles(Elements(IdsOf(ps))))
  }

  /** What a failed flush leaves: no row marked, no file changed but at a destination. */
  ghost predicate NotFlushed(host: Hosts, t: Tables, t': Tables, d: Files, d': Files, watcher: string) {
    t' == t && OnlyTargets(host, PendingFor(t, watcher), d, d')
  }

  ghost predicate ClosedOnce(conns: seq<SFTPClient>)
    reads set c | c in conns :: c`closes
  {
    forall c :: c in conns ==> c.closes == 1
  }

  ghost predicate NoMachineTwice(conns: seq<SFTPClient>) {
    forall i, j :: 0 <= i < j < |conns| ==> conns[i].machine.name != conns[j].machine.name
  }

  lemma MoreMachines(conns: seq<SFTPClient>, c: SFTPClient)
    requires NoMachineTwice(conns) && forall d :: d in conns ==> d.machine.name != c.machine.name
    ensures NoMachineTwice(conns + [c])
  {
  }

  /** One connection a machine at most, and each with the details every listed file gives for its machine. */
  ghost predicate OpenedFor(ps: seq<PendingFlush>, conns: seq<SFTPClient>) {
    NoMachineTwice(conns) && forall p :: p in ps ==> Agrees(conns, p.source) && Agrees(conns, p.target)
  }

  /** The machine is the source or the target of a listed file, details included. */
  ghost predicate Asked(ps: seq<PendingFlush>, m: MachineDetails) {
    exists p :: p in ps && (m == p.source || m == p.target)
  }

  /** All entries have one source and one target, and one name does not stand for two sets of details. */
  ghost predicate Uniform(ps: seq<PendingFlush>) {
    forall p, q :: p in ps && q in ps ==>
      p.source == q.source && p.target == q.target && (p.source.name == p.target.name ==> p.source == p.target)
  }

  class FlushJob {
    const watcherName: string
    const db: DB
    const net: Network
    const stream: Stream?

    constructor (watcherName: string, db: DB, net: Network, stream: Stream?)
      ensures this.watcherName == watcherName && this.db == db && this.net == net && this.stream == stream
    {
      this.watcherName, this.db, this.net, this.stream := watcherName, db, net, stream;
    }

    method LogMessage(msg: string)
      modifies stream
      ensures stream != null ==> OnlyLogs(old(stream.sent), stream.sent)
    {
      if stream != null {
        var _ := stream.Send(Log(msg));
      }
    }

    /** The connections for one file: the source first, and the target only if that succeeded. */
    method Connect(pool: ClientPool, pf: PendingFlush) returns (srcClient: SFTPClient?, dstClient: SFTPClient?)
      requires pool.Valid() && pool.net == net && Uniform([pf])
      requires Agrees(pool.dialled, pf.source) && Agrees(pool.dialled, pf.target)
      modifies pool, net`dials
      ensures pool.Valid() && forall c :: c in old(pool.dialled) ==> c in pool.dialled
      ensures forall c :: c in pool.dialled && c !in old(pool.dialled) ==>
        fresh(c) && c.closes == 0 && (c.machine == pf.source || c.machine == pf.target)
      ensures srcClient != null ==> srcClient.net == net && srcClient.machine == pf.source
      ensures dstClient != null ==> dstClient.net == net && dstClient.machine == pf.target
    {
      assert pf in [pf];
      dstClient := null;
      srcClient := pool.Get(pf.source);
      if srcClient != null {
        dstClient := pool.Get(pf.target);
      }
    }

    method TransferPendingFile(pool: ClientPool, pf: PendingFlush, now: Time) returns (ok: bool)
      requires pool.Valid() && pool.net == net && Uniform([pf])
      requires Agrees(pool.dialled, pf.source) && Agrees(pool.dialled, pf.target)
      modifies pool, net
      ensures pool.Valid() && forall c :: c in old(pool.dialled) ==> c in pool.dialled
      ensures forall c :: c in pool.dialled && c !in old(pool.dialled) ==>
        fresh(c) && c.closes == 0 && (c.machine == pf.source || c.machine == pf.target)
      ensures ok ==> Source(net.host, pf) in old(net.files)
      ensures ok ==> net.files == CopyFile(old(net.files), Source(net.host, pf), Target(net.host, pf))
      ensures forall x :: x != Target(net.host, pf) ==> Same(net.files, old(net.files), x)
    {
      var srcClient, dstClient := Connect(pool, pf);
      assert net.files == old(net.files);
      if srcClient == null || dstClient == null {
        return false;
      }
      var src, dst := Paths.Join(pf.filePath, pf.fileName), Paths.Join(pf.targetPath, pf.fileName);
      assert srcClient.At(src) == Source(net.host, pf) && dstClient.At(dst) == Target(net.host, pf);
      ok := TransferFile(srcClient, dstClient, src, dst, now);
    }

    /** Copies the listed files in order, stopping at the first failure. */
    method TransferAll(pool: ClientPool, pending: seq<PendingFlush>, now: Time) returns (ok: bool, ids: seq<int>)
      requires pool.Valid() && pool.net == net && pool.dialled == [] && Uniform(pending)
      modifies pool, net
      ensures pool.Valid()
      ensures forall c :: c in pool.dialled ==> fresh(c) && c.closes == 0 && Asked(pending, c.machine)
      ensures ok ==> Feasible(net.host, old(net.files), pending) && ids == IdsOf(pending)
      ensures ok ==> net.files == CopyAll(net.host, old(net.files), pending)
      ensures OnlyTargets(net.host, pending, old(net.files), net.files)
    {
      ids := [];
      ghost var start := net.files;
      for i := 0 to |pending|
        invariant pool.Valid() && ids == IdsOf(pending[..i])
        invariant forall c :: c in pool.dialled ==> fresh(c) && c.closes == 0 && Asked(pending, c.machine)
        invariant Feasible(net.host, start, pending[..i]) && net.files == CopyAll(net.host, start, pending[..i])
        invariant OnlyTargets(net.host, pending, start, net.files)
      {
        assert pending[i] in pending;
        ghost var before := net.files;
        ok := TransferPendingFile(pool, pending[i], now);
        TargetsStep(net.host, pending, start, before, net.files, pending[i]);
        if !ok {
          return;
        }
        CopyStep(net.host, start, pending, i, before, net.files);
        ids := ids + [pending[i].fileId];
      }
      assert pending[..|pending|] == pending;
      ok := true;
    }

    /**
      The whole job. A success copies every listed file and leaves the watcher with nothing pending; a
      failure marks nothing. On every exit each connection that was opened is closed once, no machine
      was dialled twice, and a connection has the details every listed file gives for its machine.
     */
    method Run(listOk: bool, markOk: bool, now: Time) returns (ok: bool)
      requires Consistent(db.t)
      modifies db, net, stream
      ensures if ok then Flushed(net.host, old(db.t), db.t, old(net.files), net.files, watcherName)
                && PendingFor(db.t, watcherName) == []
              else NotFlushed(net.host, old(db.t), db.t, old(net.files), net.files, watcherName)
      ensures if ok then MarksAll(old(db.t), db.t, watcherName) else db.t == old(db.t)
      ensures ok && AllKeyed(old(db.t).files) && ProperNames(old(db.t).files) ==>
        Delivers(net.host, old(db.t), old(net.files), net.files, watcherName)
      ensures KeepsOthers(net.host, old(db.t), old(net.files), net.files, watcherName)
      ensures old(net.dials) <= net.dials
      ensures ClosedOnce(net.dials[|old(net.dials)|..])
      ensures OpenedFor(PendingFor(old(db.t), watcherName), net.dials[|old(net.dials)|..])
      ensures stream != null ==> OnlyLogs(old(stream.sent), stream.sent)
    {
      var listed := db.ListPendingFlushes(watcherName, listOk);
      if listed.Err? {
        NotFlushedByRows(net.host, old(db.t), db.t, old(net.files), net.files, watcherName);
        return false;
      }
      var pending := listed.value;
      if |pending| == 0 {
        LogMessage("no pending flushes");
        FlushedByRows(net.host, old(db.t), db.t, old(net.files), net.files, watcherName);
        return true;
      }
      LogMessage("found pending flushes");
      ok := FlushListed(pending, markOk, now);
      ListedIds(old(db.t), watcherName);
      if ok {
        FlushedByRows(net.host, old(db.t), db.t, old(net.files), net.files, watcherName);
      } else {
        NotFlushedByRows(net.host, old(db.t), db.t, old(net.files), net.files, watcherName);
      }
    }

    /** What follows the listing: copies, the mark, and, whatever happened, the connections closed. */
    method FlushListed(pending: seq<PendingFlush>, markOk: bool, now: Time) returns (ok: bool)
      requires Consistent(db.t) && pending == PendingFor(db.t, watcherName) && pending != []
      modifies db, net
      ensures if ok then Flushed(net.host, old(db.t), db.t, old(net.files), net.files, watcherName)
              else NotFlushed(net.host, old(db.t), db.t, old(net.files), net.files, watcherName)
      ensures old(net.dials) <= net.dials
      ensures ClosedOnce(net.dials[|old(net.dials)|..])
      ensures OpenedFor(pending, net.dials[|old(net.dials)|..])
    {
      var pool := new ClientPool(net);
      ListingUniform(db.t, watcherName);
      var copied, ids := TransferAll(pool, pending, now);
      ok := copied;
      if copied {
        ok := db.FlushWatchedFiles(ids, markOk);
      }
      DetailsAgree(pending, pool.dialled);
      pool.CloseAll();
      assert net.dials[|old(net.dials)|..] == pool.dialled;
    }
  }

  /** What a success and a failure mean for rows and places. */
  lemma FlushedByRows(host: Hosts, t: Tables, t': Tables, d: Files, d': Files, watcher: string)
    requires Consistent(t) && Flushed(host, t, t', d, d', watcher)
    ensures MarksAll(t, t', watcher) && KeepsOthers(host, t, d, d', watcher)
    ensures AllKeyed(t.files) && ProperNames(t.files) ==> Delivers(host, t, d, d', watcher)
  {
    var ps := PendingFor(t, watcher);
    assert ps == [] ==> Feasible(host, d, ps) && CopyAll(host, d, ps) == d;
    CopyKeeps(host, d, ps);
    OnlyDestinations(host, t, d, d', watcher);
    if ps == [] {
      NothingToMark(t, watcher);
    } else {
      MarkMarksAll(t, watcher);
    }
    if AllKeyed(t.files) && ProperNames(t.files) {
      CopyDelivers(host, t, d, watcher);
    }
  }

  lemma NotFlushedByRows(host: Hosts, t: Tables, t': Tables, d: Files, d': Files, watcher: string)
    requires Consistent(t) && NotFlushed(host, t, t', d, d', watcher)
    ensures KeepsOthers(host, t, d, d', watcher)
  {
    OnlyDestinations(host, t, d, d', watcher);
  }

  /** Marking the listed ids leaves nothing pending. */
  lemma ListedIds(t: Tables, watcher: string)
    requires Consistent(t)
    ensures PendingFor(Effect(t, MarkFiles(Elements(IdsOf(PendingFor(t, watcher))))), watcher) == []
  {
    var ps := PendingFor(t, watcher);
    forall p | p in ps ensures p.fileId in Elements(IdsOf(ps)) {
      var i :| 0 <= i < |ps| && ps[i] == p;
      assert IdsOf(ps)[i] == p.fileId;
    }
    NothingLeftPending(t, watcher, Elements(IdsOf(ps)));
  }

  lemma ListingUniform(t: Tables, watcher: string)
    requires Consistent(t)
    ensures Uniform(PendingFor(t, watcher))
  {
    var ps := PendingFor(t, watcher);
    forall p, q | p in ps && q in ps
      ensures p.source == q.source && p.target == q.target && (p.source.name == p.target.name ==> p.source == p.target)
    {
      PendingMachinesAgree(t, watcher, p, q);
    }
  }

  /** Connections to machines of one listing have the details it gives. */
  lemma DetailsAgree(ps: seq<PendingFlush>, conns: seq<SFTPClient>)
    requires Uniform(ps) && forall c :: c in conns ==> Asked(ps, c.machine)
    ensures forall p :: p in ps ==> Agrees(conns, p.source) && Agrees(conns, p.target)
  {
  }

  // ---------------------------------------------------------------- the two entry points

  class FlushService {
    const db: DB
    const net: Network

    constructor (db: DB, net: Network)
      ensures this.db == db && this.net == net
    {
      this.db, this.net := db, net;
    }

    /** Answers true exactly when the job succeeded. */
    method FlushWatcher(name: string, listOk: bool, markOk: bool, now: Time) returns (ok: bool)
      requires Consistent(db.t)
      modifies db, net
      ensures name == "" ==> !ok && db.t == old(db.t) && net.files == old(net.files)
      ensures name != "" ==>
        if ok then Flushed(net.host, old(db.t), db.t, old(net.files), net.files, name)
        else NotFlushed(net.host, old(db.t), db.t, old(net.files), net.files, name)
      ensures old(net.dials) <= net.dials && ClosedOnce(net.dials[|old(net.dials)|..])
      ensures OpenedFor(PendingFor(old(db.t), name), net.dials[|old(net.dials)|..])
    {
      if name == "" {
        return false;
      }
      var job := new FlushJob(name, db, net, null);
      ok := job.Run(listOk, markOk, now);
    }

    /**
      The same job under a stream: a RESULT is sent only after a success, and a success may still end in a
      send error.
     */
    method StreamFlushWatcher(name: string, stream: Stream, listOk: bool, markOk: bool, now: Time) returns (ok: bool)
      requires Consistent(db.t)
      modifies db, net, stream
      ensures name == "" ==> !ok && db.t == old(db.t) && net.files == old(net.files) && stream.sent == old(stream.sent)
      ensures name != "" ==>
        || Flushed(net.host, old(db.t), db.t, old(net.files), net.files, name)
        || (!ok && NotFlushed(net.host, old(db.t), db.t, old(net.files), net.files, name))
      ensures old(net.dials) <= net.dials && ClosedOnce(net.dials[|old(net.dials)|..])
      ensures OpenedFor(PendingFor(old(db.t), name), net.dials[|old(net.dials)|..])
      ensures if ok then EndsWith(old(stream.sent), stream.sent, FlushResult(true))
              else OnlyLogs(old(stream.sent), stream.sent)
    {
      if name == "" {
        return false;
      }
      var job := new FlushJob(name, db, net, stream);
      ok := job.Run(listOk, markOk, now);
      if ok {
        ghost var logs := stream.sent;
        ok := SendResult(stream);
        LogsCompose(old(stream.sent), logs, stream.sent, FlushResult(true), ok);
      }
    }

    /** The final LOG and the RESULT: a RESULT was sent exactly when both sends succeed. */
    method SendResult(stream: Stream) returns (sent: bool)
      modifies stream
      ensures if sent then EndsWith(old(stream.sent), stream.sent, FlushResult(true))
              else OnlyLogs(old(stream.sent), stream.sent)
    {
      sent := stream.Send(Log("flush job completed"));
      if sent {
        ghost var logs := stream.sent;
        sent := stream.Send(FlushResult(true));
        assert OnlyLogs(old(stream.sent), logs);
      }
    }
  }

  lemma CopyStep(host: Hosts, d: Files, ps: seq<PendingFlush>, i: nat, before: Files, after: Files)
    requires i < |ps| && Feasible(host, d, ps[..i]) && before == CopyAll(host, d, ps[..i])
    requires Source(host, ps[i]) in before && after == CopyFile(before, Source(host, ps[i]), Target(host, ps[i]))
    ensures Feasible(host, d, ps[..i + 1]) && after == CopyAll(host, d, ps[..i + 1])
    ensures IdsOf(ps[..i + 1]) == IdsOf(ps[..i]) + [ps[i].fileId]
  {
    assert ps[..i + 1][..i] == ps[..i];
  }

  lemma TargetsStep(host: Hosts, ps: seq<PendingFlush>, d: Files, e: Files, f: Files, p: PendingFlush)
    requires OnlyTargets(host, ps, d, e) && p in ps && forall x :: x != Target(host, p) ==> Same(f, e, x)
    ensures OnlyTargets(host, ps, d, f)
  {
    forall x | forall q :: q in ps ==> Target(host, q) != x ensures Same(f, d, x) {
      assert Same(f, e, x) && Same(e, d, x);
    }
  }
}
