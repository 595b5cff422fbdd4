/**
  The one way a walk yields a path that is not clean: the source path names a file and is not in clean
  form. What repeated syncs then do to the table.
 */
module FileRoot {
  import opened Schema
  import opened Database
  import opened Sync
  import opened SyncLaws
  import opened Reachability
  import opened Walk
  import Transfer
  import Paths

  /** The disk on which the walker of `p` shows the file `p` itself. */
  function FileRootWalks(p: string, name: string): string -> seq<Entry> {
    d => if d == p then [Entry(p, name, false, false)] else []
  }

  /** A walk of that disk accepts the one path, as it was given. */
  lemma FileRootAccepted(p: string, name: string)
    requires name != IGNORE_FILE_NAME
    ensures Bounded(FileRootWalks(p, name), p, {p}) && AcceptedSet(FileRootWalks(p, name), NoRules, p, {p}) == {p}
  {
    var walks := FileRootWalks(p, name);
    var e := Entry(p, name, false, false);
    assert walks(p) == [e] && [e][..0] == [];
    assert FilesIn([e], NoRules, p) == FilesIn([], NoRules, p) + FileOf(e, NoRules, p);
    assert DirsIn([e]) == DirsIn([]) + DirOf(e);
    ReachSelf(Shows(walks), p);
  }

  lemma CleanDots()
    ensures Paths.Clean("") == "." && Paths.Clean("./") == "." && !Paths.Rooted(".") && Paths.Parts(".") == []
  {
  }

  lemma NameIsClean(n: string)
    requires Transfer.ProperName(n)
    ensures Paths.IsClean(n) && Paths.Dir(n) == "." && Paths.Base(n) == n
  {
    CleanDots();
    assert Paths.Slashed([n]) == n;
    Paths.ParseRender(false, [n]);
    Paths.DirBaseOfConcat("", n);
    assert "" + n == n;
  }

  /** "./n" is stored under the key of "n". */
  lemma DottedKey(n: string)
    requires Transfer.ProperName(n)
    ensures Paths.Dir("./" + n) == "." && Paths.Base("./" + n) == n
  {
    CleanDots();
    Paths.DirBaseOfConcat("./", n);
  }

  lemma DottedJoin(n: string)
    requires Transfer.ProperName(n)
    ensures Paths.Join(".", n) == n && !Paths.IsClean("./" + n)
  {
    assert "./" + n == "." + "/" + n;
    assert [] + [n] == [n] && Paths.Slashed([n]) == n;
    Paths.JoinNormal(false, [], n);
  }

  /** `p` is stored under the key of `n`, and reads back as `n`. */
  ghost predicate ReadsAs(p: string, n: string) {
    p != n && Paths.Dir(p) == Paths.Dir(n) && Paths.Base(p) == Paths.Base(n)
      && Paths.Join(Paths.Dir(n), Paths.Base(n)) == n
  }

  lemma DottedReadsAs(n: string)
    requires Transfer.ProperName(n)
    ensures ReadsAs("./" + n, n) && !Paths.IsClean("./" + n)
  {
    DottedKey(n);
    DottedJoin(n);
    NameIsClean(n);
    assert |"./" + n| != |n|;
  }

  lemma RowReadsAs(watcher: string, p: string, n: string, flush: bool, now: Time, id: int)
    requires ReadsAs(p, n)
    ensures var row := NewRow(watcher, p, flush, now).Row(id);
            KeyOf(row) == PathKey(watcher, n) == PathKey(watcher, p) && FullPath(row) == n
  {
  }

  /** The one path of such a disk, added to rows that do not stand for it. */
  lemma OneAddition(files: seq<File>, watcher: string, p: string, flush: bool, env: Env)
    requires Orders(env.order) && p !in TrackedPaths(files, watcher)
    ensures Untracked(files, watcher, {p}) == {p}
    ensures Additions(files, watcher, {p}, flush, env)
      == [NewRow(watcher, p, flush, env.now).Row(MaxId(files, FileId) + 1)]
  {
    assert Untracked(files, watcher, {p}) == {p};
    SingleOrder(env, p);
  }

  /** What a successful run reports, when the walk accepts only `p`, which no row stands for, */
  lemma RootReport(t: Tables, watcher: string, p: string, flush: bool, env: Env)
    requires Orders(env.order) && p !in TrackedPaths(t.files, watcher)
    ensures var (t', r) := SyncOutcome(t, watcher, {p}, flush, env);
            var vanished := Vanished(t.files, watcher, {p});
            r.Ok? ==> r.value == SyncResult(1, ToInt32(|vanished|), {p}, vanished)
  {
    OneAddition(t.files, watcher, p, flush, env);
    Reported(t, watcher, {p}, flush, env);
  }

  /** and what it leaves of the table. */
  lemma RootTable(t: Tables, watcher: string, p: string, flush: bool, env: Env) returns (added: File)
    requires Orders(env.order) && p !in TrackedPaths(t.files, watcher)
    ensures added == NewRow(watcher, p, flush, env.now).Row(added.id) && (t.files == [] ==> added.id == 1)
    ensures var (t', r) := SyncOutcome(t, watcher, {p}, flush, env);
            r.Ok? ==> t'.files == Reject(t.files + [added], KeyOf, PathKeys(watcher, Vanished(t.files, watcher, {p})))
  {
    added := RootAddition(t.files, watcher, p, flush, env);
    SyncShape(t, watcher, {p}, flush, env);
  }

  lemma RootAddition(files: seq<File>, watcher: string, p: string, flush: bool, env: Env) returns (added: File)
    requires Orders(env.order) && p !in TrackedPaths(files, watcher)
    ensures added == NewRow(watcher, p, flush, env.now).Row(added.id) && (files == [] ==> added.id == 1)
    ensures Additions(files, watcher, {p}, flush, env) == [added]
  {
    OneAddition(files, watcher, p, flush, env);
    added := NewRow(watcher, p, flush, env.now).Row(MaxId(files, FileId) + 1);
  }

  /** The first sync, of an empty table, */
  lemma FirstRootSync(t: Tables, watcher: string, p: string, flush: bool, env: Env)
    requires Orders(env.order) && t.files == []
    ensures var (t', r) := SyncOutcome(t, watcher, {p}, flush, env);
            r.Ok? ==> t'.files == [NewRow(watcher, p, flush, env.now).Row(1)]
  {
    var added := RootTable(t, watcher, p, flush, env);
    NothingRejected(watcher, p, added);
  }

  lemma NothingRejected(watcher: string, p: string, row: File)
    ensures Reject([] + [row], KeyOf, PathKeys(watcher, Vanished([], watcher, {p}))) == [row]
  {
    NothingVanished(watcher, p);
    RejectNothing([] + [row], {});
    assert [] + [row] == [row];
  }

  lemma NothingVanished(watcher: string, p: string)
    ensures Vanished([], watcher, {p}) == [] && PathKeys(watcher, []) == {}
  {
  }

  lemma OneTracked(row: File, watcher: string, p: string)
    requires row.watcherName == watcher && FullPath(row) != p
    ensures TrackedPaths([row], watcher) == {FullPath(row)} && Vanished([row], watcher, {p}) == [FullPath(row)]
  {
    assert [row][..0] == [] && [row][1..] == [];
    assert Select([row], FileWatcher, {watcher}) == [row];
    assert Stale([], {p}) == [];
  }

  /** and the second: its report, */
  lemma SecondRootReport(t: Tables, watcher: string, p: string, row: File, flush: bool, env: Env)
    requires Orders(env.order) && t.files == [row] && row.watcherName == watcher && FullPath(row) != p
    ensures var (t', r) := SyncOutcome(t, watcher, {p}, flush, env);
            r.Ok? ==> r.value == SyncResult(1, 1, {p}, [FullPath(row)])
  {
    OneTracked(row, watcher, p);
    RootReport(t, watcher, p, flush, env);
  }

  /** and the table it leaves. */
  lemma SecondRootTable(t: Tables, watcher: string, p: string, n: string, row: File, flush: bool, env: Env)
    requires Orders(env.order) && t.files == [row] && ReadsAs(p, n)
    requires row.watcherName == watcher && FullPath(row) == n && KeyOf(row) == PathKey(watcher, n)
    ensures var (t', r) := SyncOutcome(t, watcher, {p}, flush, env);
            r.Ok? ==> t'.files == []
  {
    OneTracked(row, watcher, p);
    var added := RootTable(t, watcher, p, flush, env);
    RowReadsAs(watcher, p, n, flush, env.now, added.id);
    BothRejected(row, added, watcher, n);
  }

  lemma BothRejected(row: File, added: File, watcher: string, n: string)
    requires KeyOf(row) == KeyOf(added) == PathKey(watcher, n)
    ensures Reject([row] + [added], KeyOf, PathKeys(watcher, [n])) == []
  {
    assert n in [n] && PathKey(watcher, n) in PathKeys(watcher, [n]);
    RejectEvery([row] + [added], PathKeys(watcher, [n]));
  }

  lemma {:induction false} RejectEvery(files: seq<File>, dead: set<FileKey>)
    requires forall i :: 0 <= i < |files| ==> KeyOf(files[i]) in dead
    ensures Reject(files, KeyOf, dead) == []
  {
    if files != [] {
      RejectEvery(files[1..], dead);
    }
  }

  /**
    When the source path is the file "./n", the second sync deletes the row its own first write has just
    inserted along with the old one: it reports one file added and one removed, and tracks nothing.
   */
  lemma FileRootLost(t: Tables, watcher: string, n: string, flush: bool, env: Env, flush': bool, env': Env)
    requires Orders(env.order) && Orders(env'.order) && t.files == []
    requires Transfer.ProperName(n)
    ensures var p := "./" + n;
            var (t1, r1) := SyncOutcome(t, watcher, {p}, flush, env);
            var (t2, r2) := SyncOutcome(t1, watcher, {p}, flush', env');
            r1.Ok? && r2.Ok? ==>
              && t1.files == [NewRow(watcher, p, flush, env.now).Row(1)]
              && r2.value == SyncResult(1, 1, {p}, [n]) && t2.files == []
  {
    DottedReadsAs(n);
    TwoRootSyncs(t, watcher, "./" + n, n, flush, env, flush', env');
  }

  lemma TwoRootSyncs(t: Tables, watcher: string, p: string, n: string, flush: bool, env: Env, flush': bool, env': Env)
    requires Orders(env.order) && Orders(env'.order) && t.files == [] && ReadsAs(p, n)
    ensures var (t1, r1) := SyncOutcome(t, watcher, {p}, flush, env);
            var (t2, r2) := SyncOutcome(t1, watcher, {p}, flush', env');
            r1.Ok? && r2.Ok? ==>
              && t1.files == [NewRow(watcher, p, flush, env.now).Row(1)]
              && r2.value == SyncResult(1, 1, {p}, [n]) && t2.files == []
  {
    var (t1, r1) := SyncOutcome(t, watcher, {p}, flush, env);
    if r1.Ok? {
      FirstRootSync(t, watcher, p, flush, env);
      RowReadsAs(watcher, p, n, flush, env.now, 1);
      var row := NewRow(watcher, p, flush, env.now).Row(1);
      SecondRootReport(t1, watcher, p, row, flush', env');
      SecondRootTable(t1, watcher, p, n, row, flush', env');
    }
  }
}
