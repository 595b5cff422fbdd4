/**
  The pending_file_flushes view: a five-table inner join, and the filter it amounts to on every
  consistent database.
 */
module PendingView {
  import opened Schema
  import Integrity

  datatype MachineDetails = MachineDetails(name: string, ip: string, sshPort: int, sshUser: string, keyPath: string)

  datatype PendingFlush = PendingFlush(fileId: int, watcherName: string, filePath: string, fileName: string,
                                       targetPath: string, source: MachineDetails, target: MachineDetails)

  function Details(m: Machine): MachineDetails {
    MachineDetails(m.name, m.ip, m.sshPort, m.sshUser, m.keyPath)
  }

  function PendingRow(f: File, r: Redirection, m: Machine, tm: Machine): PendingFlush {
    PendingFlush(f.id, f.watcherName, f.filePath, f.fileName, r.targetPath, Details(m), Details(tm))
  }

  // ---------------------------------------------------------------- the join, as nested loops

  function OverTargets(f: File, r: Redirection, m: Machine, tms: seq<Machine>): seq<PendingFlush> {
    if tms == [] then [] else [PendingRow(f, r, m, tms[0])] + OverTargets(f, r, m, tms[1..])
  }

  function OverMachines(t: Tables, f: File, r: Redirection, ms: seq<Machine>): seq<PendingFlush> {
    if ms == [] then []
    else OverTargets(f, r, ms[0], Select(t.machines, MachineName, {r.targetMachine})) + OverMachines(t, f, r, ms[1..])
  }

  function OverWatchers(t: Tables, f: File, r: Redirection, ws: seq<Watcher>): seq<PendingFlush> {
    if ws == [] then []
    else OverMachines(t, f, r, Select(t.machines, MachineName, {ws[0].machineName})) + OverWatchers(t, f, r, ws[1..])
  }

  function OverRedirections(t: Tables, f: File, rs: seq<Redirection>): seq<PendingFlush> {
    if rs == [] then []
    else OverWatchers(t, f, rs[0], Select(t.watchers, WatcherName, {f.watcherName})) + OverRedirections(t, f, rs[1..])
  }

  /** The WHERE clause and the joins above one row of watched_files. */
  function OverFile(t: Tables, f: File): seq<PendingFlush> {
    if f.flushed then []
    else OverRedirections(t, f, Select(t.redirections, RedirectionWatcher, {f.watcherName}))
  }

  function OverFiles(t: Tables, fs: seq<File>): seq<PendingFlush> {
    if fs == [] then [] else OverFile(t, fs[0]) + OverFiles(t, fs[1..])
  }

  /** SELECT * FROM pending_file_flushes. */
  function JoinView(t: Tables): seq<PendingFlush> {
    OverFiles(t, t.files)
  }

  /** ListPendingFlushes: the view restricted to one watcher. */
  function PendingFor(t: Tables, watcher: string): seq<PendingFlush> {
    Select(JoinView(t), PendingWatcher, {watcher})
  }

  function PendingWatcher(p: PendingFlush): string { p.watcherName }

  // ---------------------------------------------------------------- the filter

  ghost predicate Waiting(t: Tables, f: File) {
    !f.flushed && Has(t.redirections, RedirectionWatcher, f.watcherName)
  }

  /** The rows of the other tables that belong to `f`: its redirection, its watcher, both machines. */
  ghost predicate Joined(t: Tables, f: File, r: Redirection, w: Watcher, m: Machine, tm: Machine) {
    && r in t.redirections && r.watcherName == f.watcherName
    && w in t.watchers && w.name == f.watcherName
    && m in t.machines && m.name == w.machineName
    && tm in t.machines && tm.name == r.targetMachine
  }

  /** `p` describes `f`: its own redirection, its watcher's machine as source, the target machine. */
  ghost predicate Describes(t: Tables, f: File, p: PendingFlush) {
    exists r, w, m, tm :: Joined(t, f, r, w, m, tm) && p == PendingRow(f, r, m, tm)
  }

  /** The waiting rows, in table order. */
  ghost function WaitingRows(t: Tables, fs: seq<File>): (r: seq<File>)
    ensures forall f :: f in r <==> f in fs && Waiting(t, f)
  {
    if fs == [] then []
    else (if Waiting(t, fs[0]) then [fs[0]] else []) + WaitingRows(t, fs[1..])
  }

  lemma FindRow<T(!new)>(s: seq<T>, key: T -> string, k: string) returns (x: T)
    requires Distinct(s, key) && Has(s, key, k)
    ensures x in s && key(x) == k && Select(s, key, {k}) == [x]
  {
    x :| x in s && key(x) == k;
    var i :| 0 <= i < |s| && s[i] == x;
    SelectUnique(s, key, i);
  }

  lemma InnerChain(t: Tables, f: File, r: Redirection, w: Watcher, m: Machine, tm: Machine)
    requires Select(t.machines, MachineName, {w.machineName}) == [m]
    requires Select(t.machines, MachineName, {r.targetMachine}) == [tm]
    ensures OverWatchers(t, f, r, [w]) == [PendingRow(f, r, m, tm)]
  {
    assert [w][1..] == [] && [m][1..] == [] && [tm][1..] == [];
    assert OverTargets(f, r, m, [tm]) == [PendingRow(f, r, m, tm)];
    assert OverMachines(t, f, r, [m]) == OverTargets(f, r, m, [tm]) + [];
    assert OverWatchers(t, f, r, [w]) == OverMachines(t, f, r, [m]) + [];
  }

  /** Where each step of the joins meets one row, so do they all. */
  lemma JoinChain(t: Tables, f: File, r: Redirection, w: Watcher, m: Machine, tm: Machine)
    requires !f.flushed && Select(t.redirections, RedirectionWatcher, {f.watcherName}) == [r]
    requires Select(t.watchers, WatcherName, {f.watcherName}) == [w]
    requires Select(t.machines, MachineName, {w.machineName}) == [m]
    requires Select(t.machines, MachineName, {r.targetMachine}) == [tm]
    ensures OverFile(t, f) == [PendingRow(f, r, m, tm)]
  {
    InnerChain(t, f, r, w, m, tm);
    assert [r][1..] == [];
    assert OverRedirections(t, f, [r]) == OverWatchers(t, f, r, [w]) + [];
  }

  /** The joins above a waiting row meet exactly one row of each other table. */
  lemma JoinOneRow(t: Tables, f: File)
    requires Consistent(t) && f in t.files
    ensures if Waiting(t, f) then |OverFile(t, f)| == 1 && Describes(t, f, OverFile(t, f)[0]) else OverFile(t, f) == []
  {
    if Waiting(t, f) {
      var r := FindRow(t.redirections, RedirectionWatcher, f.watcherName);
      var w := FindRow(t.watchers, WatcherName, f.watcherName);
      var m := FindRow(t.machines, MachineName, w.machineName);
      var tm := FindRow(t.machines, MachineName, r.targetMachine);
      assert Joined(t, f, r, w, m, tm);
      JoinChain(t, f, r, w, m, tm);
    } else if !f.flushed {
      forall i | 0 <= i < |t.redirections| ensures RedirectionWatcher(t.redirections[i]) != f.watcherName {
        assert t.redirections[i] in t.redirections;
      }
      SelectNone(t.redirections, RedirectionWatcher, f.watcherName);
    }
  }

  /** Row by row, `ps` describes `fs`. */
  ghost predicate DescribesAll(t: Tables, fs: seq<File>, ps: seq<PendingFlush>) {
    |fs| == |ps| && forall i :: 0 <= i < |fs| ==> Describes(t, fs[i], ps[i])
  }

  lemma DescribesConcat(t: Tables, fs: seq<File>, ps: seq<PendingFlush>, gs: seq<File>, qs: seq<PendingFlush>)
    requires DescribesAll(t, fs, ps) && DescribesAll(t, gs, qs)
    ensures DescribesAll(t, fs + gs, ps + qs)
  {
  }

  lemma {:induction false} JoinRows(t: Tables, fs: seq<File>)
    requires Consistent(t) && forall f :: f in fs ==> f in t.files
    ensures DescribesAll(t, WaitingRows(t, fs), OverFiles(t, fs))
  {
    if fs != [] {
      JoinRows(t, fs[1..]);
      JoinOneRow(t, fs[0]);
      DescribesConcat(t, if Waiting(t, fs[0]) then [fs[0]] else [], OverFile(t, fs[0]),
                      WaitingRows(t, fs[1..]), OverFiles(t, fs[1..]));
    }
  }

  /**
    On a consistent database the join loses nothing and duplicates nothing: it has one result per
    waiting row, in table order, each with that row's own source and target machine.
   */
  lemma JoinIsFilter(t: Tables)
    requires Consistent(t)
    ensures DescribesAll(t, WaitingRows(t, t.files), JoinView(t))
  {
    JoinRows(t, t.files);
  }

  /** So it is after any history of statements, allowed or refused, on a database created empty. */
  lemma JoinIsFilterAlways(ss: seq<Statement>)
    ensures var t := ExecAll(Tables([], [], [], []), ss);
            Consistent(t) && DescribesAll(t, WaitingRows(t, t.files), JoinView(t))
  {
    Integrity.AlwaysConsistent(Tables([], [], [], []), ss);
    JoinIsFilter(ExecAll(Tables([], [], [], []), ss));
  }

  lemma JoinedUnique(t: Tables, f: File, g: File, r: Redirection, w: Watcher, m: Machine, tm: Machine,
                     r': Redirection, w': Watcher, m': Machine, tm': Machine)
    requires Consistent(t) && f.watcherName == g.watcherName
    requires Joined(t, f, r, w, m, tm) && Joined(t, g, r', w', m', tm')
    ensures r == r' && w == w' && m == m' && tm == tm'
    ensures m.name == tm.name ==> m == tm
  {
  }

  lemma DescribingRows(t: Tables, f: File, p: PendingFlush)
    returns (r: Redirection, w: Watcher, m: Machine, tm: Machine)
    requires Describes(t, f, p)
    ensures Joined(t, f, r, w, m, tm) && p == PendingRow(f, r, m, tm)
  {
    r, w, m, tm :| Joined(t, f, r, w, m, tm) && p == PendingRow(f, r, m, tm);
  }

  /** What one watcher's listing holds: exactly the descriptions of its waiting rows. */
  lemma PendingForExact(t: Tables, watcher: string, p: PendingFlush)
    requires Consistent(t)
    ensures p in PendingFor(t, watcher) <==>
            exists f :: f in t.files && f.watcherName == watcher && Waiting(t, f) && Describes(t, f, p)
  {
    JoinIsFilter(t);
    if p in PendingFor(t, watcher) {
      PendingHasRow(t, watcher, p);
    }
    if f :| f in t.files && f.watcherName == watcher && Waiting(t, f) && Describes(t, f, p) {
      RowIsPending(t, f, p);
    }
  }

  lemma PendingHasRow(t: Tables, watcher: string, p: PendingFlush)
    requires DescribesAll(t, WaitingRows(t, t.files), JoinView(t)) && p in PendingFor(t, watcher)
    ensures exists f :: f in t.files && f.watcherName == watcher && Waiting(t, f) && Describes(t, f, p)
  {
  }

  lemma RowIsPending(t: Tables, f: File, p: PendingFlush)
    requires Consistent(t) && DescribesAll(t, WaitingRows(t, t.files), JoinView(t))
    requires f in t.files && Waiting(t, f) && Describes(t, f, p)
    ensures p in PendingFor(t, f.watcherName)
  {
    var rows, view := WaitingRows(t, t.files), JoinView(t);
    assert f in rows;
    var i :| 0 <= i < |rows| && rows[i] == f;
    assert Describes(t, f, view[i]);
    var r, w, m, tm := DescribingRows(t, f, p);
    var r', w', m', tm' := DescribingRows(t, f, view[i]);
    JoinedUnique(t, f, f, r, w, m, tm, r', w', m', tm');
    assert p in view;
  }

  /**
    A listed entry, column by column: an unflushed row of the watcher, its watcher's machine as the source, and the
    machine and path of its redirection as the target.
   */
  lemma ListedColumns(t: Tables, watcher: string, p: PendingFlush)
    returns (f: File, r: Redirection, w: Watcher, m: Machine, tm: Machine)
    requires Consistent(t) && p in PendingFor(t, watcher)
    ensures f in t.files && f.watcherName == watcher && !f.flushed
    ensures r in t.redirections && r.watcherName == watcher && w in t.watchers && w.name == watcher
    ensures m in t.machines && m.name == w.machineName && tm in t.machines && tm.name == r.targetMachine
    ensures p.fileId == f.id && p.watcherName == watcher && p.filePath == f.filePath && p.fileName == f.fileName
    ensures p.source.name == m.name && p.source.ip == m.ip && p.source.sshPort == m.sshPort
    ensures p.source.sshUser == m.sshUser && p.source.keyPath == m.keyPath
    ensures p.target.name == tm.name && p.target.ip == tm.ip && p.target.sshPort == tm.sshPort
    ensures p.target.sshUser == tm.sshUser && p.target.keyPath == tm.keyPath && p.targetPath == r.targetPath
  {
    PendingForExact(t, watcher, p);
    f :| f in t.files && f.watcherName == watcher && Waiting(t, f) && Describes(t, f, p);
    r, w, m, tm := DescribingRows(t, f, p);
  }

  /** Within one listing there is one source, one target, and a machine name stands for one set of details. */
  lemma PendingMachinesAgree(t: Tables, watcher: string, p: PendingFlush, q: PendingFlush)
    requires Consistent(t) && p in PendingFor(t, watcher) && q in PendingFor(t, watcher)
    ensures p.source == q.source && p.target == q.target && p.targetPath == q.targetPath
    ensures p.source.name == p.target.name ==> p.source == p.target
  {
    PendingForExact(t, watcher, p);
    PendingForExact(t, watcher, q);
    var f :| f in t.files && f.watcherName == watcher && Describes(t, f, p);
    var g :| g in t.files && g.watcherName == watcher && Describes(t, g, q);
    var r, w, m, tm := DescribingRows(t, f, p);
    var r', w', m', tm' := DescribingRows(t, g, q);
    JoinedUnique(t, f, g, r, w, m, tm, r', w', m', tm');
  }
}
