/**
  A successful flush told in rows: what each destination holds afterwards, and which rows are marked.
 */
module Delivery {
  import opened Schema
  import opened PendingView
  import opened SyncLaws
  import opened Transfer
  import GoSet
  import Integrity
  import Paths

  /** The connection details in a row of machines. */
  function DetailsOf(m: Machine): MachineDetails {
    MachineDetails(m.name, m.ip, m.sshPort, m.sshUser, m.keyPath)
  }

  /** The rows a file of the watcher is flushed by: its redirection, its watcher, that watcher's machine, the target. */
  ghost predicate Route(t: Tables, watcher: string, r: Redirection, w: Watcher, m: Machine, tm: Machine) {
    && r in t.redirections && r.watcherName == watcher && w in t.watchers && w.name == watcher
    && m in t.machines && m.name == w.machineName && tm in t.machines && tm.name == r.targetMachine
  }

  ghost predicate Unflushed(t: Tables, watcher: string, f: File) {
    f in t.files && f.watcherName == watcher && !f.flushed
  }

  /** No other unflushed row of the watcher has this file name. */
  ghost predicate OnlyOfName(t: Tables, watcher: string, f: File) {
    forall g :: Unflushed(t, watcher, g) && g.fileName == f.fileName ==> g == f
  }

  /**
    The target machine of the redirection now holds, in the target directory and under the file's name, what the
    watcher's machine held at the path of the row: content, mode and time. If that is the very same place, the
    file is empty.
   */
  ghost predicate Delivers(host: Hosts, t: Tables, d: Files, d': Files, watcher: string) {
    forall f, r, w, m, tm :: (Unflushed(t, watcher, f) && OnlyOfName(t, watcher, f)
                              && Route(t, watcher, r, w, m, tm)) ==>
      var src := Place(host(DetailsOf(m)), Paths.Join(f.filePath, f.fileName));
      var dst := Place(host(DetailsOf(tm)), Paths.Join(r.targetPath, f.fileName));
      dst in d' && if src == dst then d'[dst].content == "" else src in d && d'[dst] == d[src]
  }

  /** Some unflushed file of the watcher goes there. */
  ghost predicate IsDestination(host: Hosts, t: Tables, watcher: string, x: Place) {
    exists f, r, w, m, tm :: Unflushed(t, watcher, f) && Route(t, watcher, r, w, m, tm)
                             && x == Place(host(DetailsOf(tm)), Paths.Join(r.targetPath, f.fileName))
  }

  /** A place that is no unflushed file's destination holds what it held. */
  ghost predicate KeepsOthers(host: Hosts, t: Tables, d: Files, d': Files, watcher: string) {
    forall x :: !IsDestination(host, t, watcher, x) ==> (x in d' <==> x in d) && (x in d ==> d'[x] == d[x])
  }

  ghost predicate Redirected(t: Tables, watcher: string) {
    exists r :: r in t.redirections && r.watcherName == watcher
  }

  /** The flag is set when asked for; all other columns are the same. */
  predicate SetsFlag(f: File, f': File, asked: bool) {
    && f'.id == f.id && f'.watcherName == f.watcherName && f'.filePath == f.filePath && f'.fileName == f.fileName
    && f'.detectedAt == f.detectedAt && f'.flushed == (f.flushed || asked)
  }

  /** Every row of a redirected watcher is flushed, and nothing else has changed in any table. */
  ghost predicate MarksAll(t: Tables, t': Tables, watcher: string) {
    && t'.machines == t.machines && t'.watchers == t.watchers && t'.redirections == t.redirections
    && |t'.files| == |t.files|
    && forall i :: 0 <= i < |t.files| ==>
         SetsFlag(t.files[i], t'.files[i], t.files[i].watcherName == watcher && Redirected(t, watcher))
  }

  // ---------------------------------------------------------------- the listing and the rows

  /** The entry of an unflushed row, column by column. */
  lemma EntryOf(t: Tables, watcher: string, f: File, r: Redirection, w: Watcher, m: Machine, tm: Machine)
    returns (p: PendingFlush)
    requires Consistent(t) && Unflushed(t, watcher, f) && Route(t, watcher, r, w, m, tm)
    ensures p in PendingFor(t, watcher) && p.fileId == f.id && p.filePath == f.filePath && p.fileName == f.fileName
    ensures p.source == DetailsOf(m) && p.target == DetailsOf(tm) && p.targetPath == r.targetPath
  {
    WaitingIsListed(t, f);
    p :| p in PendingFor(t, f.watcherName) && p.fileId == f.id;
    var f', r', w', m', tm' := ListedColumns(t, watcher, p);
    Integrity.SameRow(t.files, FileId, f, f');
    Integrity.SameRow(t.redirections, RedirectionWatcher, r, r');
    Integrity.SameRow(t.watchers, WatcherName, w, w');
    Integrity.SameRow(t.machines, MachineName, m, m');
    Integrity.SameRow(t.machines, MachineName, tm, tm');
  }

  /** Entries with one id are one entry. */
  lemma EntryUnique(t: Tables, watcher: string, p: PendingFlush, q: PendingFlush)
    requires Consistent(t) && p in PendingFor(t, watcher) && q in PendingFor(t, watcher) && p.fileId == q.fileId
    ensures p == q
  {
    var f, r, w, m, tm := ListedColumns(t, watcher, p);
    var f', r', w', m', tm' := ListedColumns(t, watcher, q);
    Integrity.SameRow(t.files, FileId, f, f');
    PendingMachinesAgree(t, watcher, p, q);
  }

  lemma {:induction false} LastIndex<T>(s: seq<T>, x: T) returns (i: nat)
    requires x in s
    ensures i < |s| && s[i] == x && forall k :: i < k < |s| ==> s[k] != x
  {
    if s[|s| - 1] == x {
      i := |s| - 1;
    } else {
      i := LastIndex(s[..|s| - 1], x);
    }
  }

  ghost predicate ProperNames(files: seq<File>) {
    forall f :: f in files ==> ProperName(f.fileName)
  }

  /** The only file of its name is the last one for its destination. */
  lemma LastOfName(host: Hosts, t: Tables, watcher: string, f: File, p: PendingFlush) returns (i: nat)
    requires Consistent(t) && AllKeyed(t.files) && ProperNames(t.files)
    requires p in PendingFor(t, watcher) && p.fileId == f.id && p.fileName == f.fileName && OnlyOfName(t, watcher, f)
    ensures i < |PendingFor(t, watcher)| && PendingFor(t, watcher)[i] == p && LastFor(host, PendingFor(t, watcher), i)
  {
    var ps := PendingFor(t, watcher);
    i := LastIndex(ps, p);
    PendingIsListing(t, watcher);
    forall k | i < k < |ps| ensures Target(host, ps[k]) != Target(host, p) {
      assert ps[k] in ps;
      if Target(host, ps[k]) == Target(host, p) {
        BaseOfJoin(p.targetPath, p.fileName);
        BaseOfJoin(p.targetPath, ps[k].fileName);
        var g, r, w, m, tm := ListedColumns(t, watcher, ps[k]);
        EntryUnique(t, watcher, ps[k], p);
      }
    }
  }

  lemma OneDelivered(host: Hosts, t: Tables, d: Files, watcher: string, f: File, r: Redirection, w: Watcher,
                     m: Machine, tm: Machine)
    requires Consistent(t) && AllKeyed(t.files) && ProperNames(t.files) && Feasible(host, d, PendingFor(t, watcher))
    requires Unflushed(t, watcher, f) && OnlyOfName(t, watcher, f) && Route(t, watcher, r, w, m, tm)
    ensures var src := Place(host(DetailsOf(m)), Paths.Join(f.filePath, f.fileName));
            var dst := Place(host(DetailsOf(tm)), Paths.Join(r.targetPath, f.fileName));
            var d' := CopyAll(host, d, PendingFor(t, watcher));
            dst in d' && if src == dst then d'[dst].content == "" else src in d && d'[dst] == d[src]
  {
    var p := EntryOf(t, watcher, f, r, w, m, tm);
    var i := LastOfName(host, t, watcher, f, p);
    PendingIsListing(t, watcher);
    FlushDelivers(host, d, PendingFor(t, watcher), i);
  }

  /** Copying the whole listing delivers every file that is the only one of its name, */
  lemma CopyDelivers(host: Hosts, t: Tables, d: Files, watcher: string)
    requires Consistent(t) && AllKeyed(t.files) && ProperNames(t.files) && Feasible(host, d, PendingFor(t, watcher))
    ensures Delivers(host, t, d, CopyAll(host, d, PendingFor(t, watcher)), watcher)
  {
    forall f, r, w, m, tm | Unflushed(t, watcher, f) && OnlyOfName(t, watcher, f) && Route(t, watcher, r, w, m, tm) {
      OneDelivered(host, t, d, watcher, f, r, w, m, tm);
    }
  }

  /** and touches nothing but destinations. */
  lemma OnlyDestinations(host: Hosts, t: Tables, d: Files, d': Files, watcher: string)
    requires Consistent(t) && OnlyTargets(host, PendingFor(t, watcher), d, d')
    ensures KeepsOthers(host, t, d, d', watcher)
  {
    forall x | !IsDestination(host, t, watcher, x) ensures Same(d', d, x) {
      forall p | p in PendingFor(t, watcher) ensures Target(host, p) != x {
        var f, r, w, m, tm := ListedColumns(t, watcher, p);
        assert Unflushed(t, watcher, f) && Route(t, watcher, r, w, m, tm) && p.target == DetailsOf(tm);
      }
    }
  }

  lemma CopyKeeps(host: Hosts, d: Files, ps: seq<PendingFlush>)
    ensures OnlyTargets(host, ps, d, CopyAll(host, d, ps))
  {
    forall x | forall p :: p in ps ==> Target(host, p) != x ensures Same(CopyAll(host, d, ps), d, x) {
      OthersKept(host, d, ps, x);
    }
  }

  /** Marking the listed ids is marking every row of the redirected watcher. */
  lemma MarkedRow(t: Tables, watcher: string, f: File)
    requires Consistent(t) && f in t.files
    ensures f.flushed || f.id in GoSet.Elements(IdsOf(PendingFor(t, watcher))) <==>
            f.flushed || (f.watcherName == watcher && Redirected(t, watcher))
  {
    var ps := PendingFor(t, watcher);
    if f.id in GoSet.Elements(IdsOf(ps)) {
      var i :| 0 <= i < |ps| && ps[i].fileId == f.id;
      var g, r, w, m, tm := ListedColumns(t, watcher, ps[i]);
      Integrity.SameRow(t.files, FileId, f, g);
    }
    if !f.flushed && f.watcherName == watcher && Redirected(t, watcher) {
      WaitingIsListed(t, f);
      var p :| p in ps && p.fileId == f.id;
      var i :| 0 <= i < |ps| && ps[i] == p;
      assert IdsOf(ps)[i] == f.id;
    }
  }

  lemma MarkMarksAll(t: Tables, watcher: string)
    requires Consistent(t)
    ensures MarksAll(t, Effect(t, MarkFiles(GoSet.Elements(IdsOf(PendingFor(t, watcher))))), watcher)
  {
    var ids := GoSet.Elements(IdsOf(PendingFor(t, watcher)));
    var marked := Mark(t.files, ids);
    forall i | 0 <= i < |t.files|
      ensures SetsFlag(t.files[i], marked[i], t.files[i].watcherName == watcher && Redirected(t, watcher))
    {
      assert t.files[i] in t.files;
      MarkedRow(t, watcher, t.files[i]);
    }
  }

  lemma NothingToMark(t: Tables, watcher: string)
    requires Consistent(t) && PendingFor(t, watcher) == []
    ensures MarksAll(t, t, watcher)
  {
    forall i | 0 <= i < |t.files|
      ensures SetsFlag(t.files[i], t.files[i], t.files[i].watcherName == watcher && Redirected(t, watcher))
    {
      assert t.files[i] in t.files;
      MarkedRow(t, watcher, t.files[i]);
    }
  }
}
