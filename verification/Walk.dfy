/**
  The traversal of a sync: a queue of walkers that may overlap, and a set of directories already
  handed to a walker.
 */
module Walk {
  import opened GoSet
  import opened Reachability

  const IGNORE_FILE_NAME := ".tfwignore"

  /** One step of a walker: a path at or below the walker's root, or an error there. */
  datatype Entry = Entry(path: string, name: string, isDir: bool, failed: bool)

  datatype Ignorer = NoRules | Rules(matches: (string, string) -> bool) {
    predicate MatchesPath(root: string, path: string) {
      Rules? && matches(root, path)
    }
  }

  /** What reading the ignore file of the source directory gives. */
  datatype IgnoreFile = Missing | Unreadable | Compiled(matches: (string, string) -> bool)

  /** The rules in force: none when the file is missing, none when it cannot be read. */
  function LoadIgnore(f: IgnoreFile): Ignorer {
    if f.Compiled? then Rules(f.matches) else NoRules
  }

  predicate Skipped(ignorer: Ignorer, root: string, e: Entry) {
    ignorer.MatchesPath(root, e.path) || e.name == IGNORE_FILE_NAME
  }

  ghost function DirOf(e: Entry): set<string> {
    if !e.failed && e.isDir then {e.path} else {}
  }

  ghost function FileOf(e: Entry, ignorer: Ignorer, root: string): set<string> {
    if !e.failed && !e.isDir && !Skipped(ignorer, root, e) then {e.path} else {}
  }

  /** The directories a walker shows. */
  ghost function DirsIn(es: seq<Entry>): set<string> {
    if es == [] then {} else DirsIn(es[..|es| - 1]) + DirOf(es[|es| - 1])
  }

  /** The files a walker shows and the sync accepts. */
  ghost function FilesIn(es: seq<Entry>, ignorer: Ignorer, root: string): set<string> {
    if es == [] then {} else FilesIn(es[..|es| - 1], ignorer, root) + FileOf(es[|es| - 1], ignorer, root)
  }

  lemma {:induction false} DirsInMember(es: seq<Entry>, p: string)
    ensures p in DirsIn(es) <==> exists e :: e in es && p in DirOf(e)
  {
    if es != [] {
      var front, last := es[..|es| - 1], es[|es| - 1];
      DirsInMember(front, p);
      assert es == front + [last];
    }
  }

  lemma {:induction false} FilesInMember(es: seq<Entry>, ignorer: Ignorer, root: string, p: string)
    ensures p in FilesIn(es, ignorer, root) <==> exists e :: e in es && p in FileOf(e, ignorer, root)
  {
    if es != [] {
      var front, last := es[..|es| - 1], es[|es| - 1];
      FilesInMember(front, ignorer, root, p);
      assert es == front + [last];
    }
  }

  /**
    The remote file system as one sync sees it: what a walker started at a path will yield. Only
    finitely many directories can ever be shown, `dirs` among them.
   */
  class RemoteFS {
    const walks: string -> seq<Entry>
    const ignoreFile: IgnoreFile
    ghost const dirs: set<string>
    ghost var started: seq<string>

    constructor (walks: string -> seq<Entry>, ignoreFile: IgnoreFile, ghost dirs: set<string>)
      ensures this.walks == walks && this.ignoreFile == ignoreFile && this.dirs == dirs && started == []
    {
      this.walks, this.ignoreFile, this.dirs, this.started := walks, ignoreFile, dirs, [];
    }

    method Walk(path: string) returns (walker: seq<Entry>)
      modifies this
      ensures walker == walks(path) && started == old(started) + [path]
    {
      walker := walks(path);
      started := started + [path];
    }
  }

  ghost function Shows(walks: string -> seq<Entry>): string -> set<string> {
    d => DirsIn(walks(d))
  }

  /** `dirs` holds the root and everything walkers started inside it can show. */
  ghost predicate Bounded(walks: string -> seq<Entry>, root: string, dirs: set<string>) {
    root in dirs && forall d :: d in dirs ==> DirsIn(walks(d)) <= dirs
  }

  /** The paths a sync accepts: shown by a walker of a directory reachable from the root, not skipped. */
  ghost predicate Accepts(walks: string -> seq<Entry>, ignorer: Ignorer, root: string, path: string) {
    exists d :: Reach(Shows(walks), root, d) && path in FilesIn(walks(d), ignorer, root)
  }

  /** The accepted paths as a set: only finitely many directories can be reached. */
  ghost function AcceptedSet(walks: string -> seq<Entry>, ignorer: Ignorer, root: string,
                             dirs: set<string>): set<string> {
    set d, p | d in dirs && p in FilesIn(walks(d), ignorer, root) && Reach(Shows(walks), root, d) :: p
  }

  lemma AcceptedSetExact(walks: string -> seq<Entry>, ignorer: Ignorer, root: string, dirs: set<string>)
    requires Bounded(walks, root, dirs)
    ensures forall p :: p in AcceptedSet(walks, ignorer, root, dirs) <==> Accepts(walks, ignorer, root, p)
  {
    ReachClosed(Shows(walks), root, iset d | d in dirs);
  }

  // ---------------------------------------------------------------- the same, entry by entry

  /**
    Some walker of a directory reachable from the root shows a file at this path without an error, it is not
    called ".tfwignore", and no rule of a readable ignore file matches its path.
   */
  ghost predicate Seen(walks: string -> seq<Entry>, f: IgnoreFile, root: string, path: string) {
    && (exists d, e :: Reach(Shows(walks), root, d) && e in walks(d) && !e.failed && !e.isDir && e.path == path
                       && e.name != ".tfwignore")
    && !(f.Compiled? && f.matches(root, path))
  }

  /** A directory is shown by the entries that are directories and not errors. */
  lemma ShowsExactly(walks: string -> seq<Entry>, d: string, path: string)
    ensures path in Shows(walks)(d) <==> exists e :: e in walks(d) && !e.failed && e.isDir && e.path == path
  {
    DirsInMember(walks(d), path);
    if e :| e in walks(d) && !e.failed && e.isDir && e.path == path {
      assert path in DirOf(e);
    }
  }

  lemma AcceptsExactly(walks: string -> seq<Entry>, f: IgnoreFile, root: string, path: string)
    ensures Accepts(walks, LoadIgnore(f), root, path) <==> Seen(walks, f, root, path)
  {
    var ignorer := LoadIgnore(f);
    if Accepts(walks, ignorer, root, path) {
      var d :| Reach(Shows(walks), root, d) && path in FilesIn(walks(d), ignorer, root);
      FilesInMember(walks(d), ignorer, root, path);
      var e :| e in walks(d) && path in FileOf(e, ignorer, root);
    }
    if Seen(walks, f, root, path) {
      var d, e :| Reach(Shows(walks), root, d) && e in walks(d) && !e.failed && !e.isDir && e.path == path
                  && e.name != ".tfwignore";
      FilesInMember(walks(d), ignorer, root, path);
      assert path in FileOf(e, ignorer, root);
    }
  }

  // ---------------------------------------------------------------- one traversal, on values

  /** The state of a traversal: directories handed to a walker, in order, and the files seen so far. */
  datatype Scan = Scan(analyzed: set<string>, onDisk: set<string>, added: set<string>, started: seq<string>)

  /** One step of a walker: an error is dropped, a new directory gets a walker, a file is recorded. */
  ghost function ScanEntry(s: Scan, e: Entry, root: string, tracked: set<string>, ignorer: Ignorer): Scan {
    if e.failed then s
    else if e.isDir then
      if e.path in s.analyzed then s
      else s.(analyzed := s.analyzed + {e.path}, started := s.started + [e.path])
    else if Skipped(ignorer, root, e) then s
    else s.(onDisk := s.onDisk + {e.path}, added := s.added + ({e.path} - tracked))
  }

  ghost function ScanAll(s: Scan, es: seq<Entry>, root: string, tracked: set<string>, ignorer: Ignorer): Scan {
    if es == [] then s
    else ScanEntry(ScanAll(s, es[..|es| - 1], root, tracked, ignorer), es[|es| - 1], root, tracked, ignorer)
  }

  ghost function WalkersOf(walks: string -> seq<Entry>, ds: seq<string>): seq<seq<Entry>> {
    seq(|ds|, i requires 0 <= i < |ds| => walks(ds[i]))
  }

  /** Directories are started once each, and exactly the analyzed ones. */
  ghost predicate StartedOnce(s: Scan) {
    NoRepeats(s.started) && Elements(s.started) == s.analyzed
  }

  lemma {:induction false} ScanGrows(s: Scan, es: seq<Entry>, root: string, tracked: set<string>, ignorer: Ignorer)
    ensures s.started <= ScanAll(s, es, root, tracked, ignorer).started
    ensures ScanAll(s, es, root, tracked, ignorer).analyzed == s.analyzed + DirsIn(es)
    ensures ScanAll(s, es, root, tracked, ignorer).onDisk == s.onDisk + FilesIn(es, ignorer, root)
    ensures ScanAll(s, es, root, tracked, ignorer).added == s.added + (FilesIn(es, ignorer, root) - tracked)
  {
    if es != [] {
      ScanGrows(s, es[..|es| - 1], root, tracked, ignorer);
    }
  }

  lemma {:induction false} ScanStartsOnce(s: Scan, es: seq<Entry>, root: string, tracked: set<string>, ignorer: Ignorer)
    requires StartedOnce(s)
    ensures StartedOnce(ScanAll(s, es, root, tracked, ignorer))
  {
    if es != [] {
      ScanStartsOnce(s, es[..|es| - 1], root, tracked, ignorer);
      var front, e := ScanAll(s, es[..|es| - 1], root, tracked, ignorer), es[|es| - 1];
      assert Elements(front.started + [e.path]) == Elements(front.started) + {e.path};
      assert e.path in front.started ==> e.path in front.analyzed;
    }
  }

  ghost function ScanOf(rfs: RemoteFS, analyzed: Set<string>, onDisk: Set<string>, added: Set<string>): Scan
    reads rfs, analyzed, onDisk, added
  {
    Scan(analyzed.items, onDisk.items, added.items, rfs.started)
  }

  /** A walker for a directory that has none yet; nothing otherwise. */
  method EnqueueSubdir(path: string, rfs: RemoteFS, analyzed: Set<string>) returns (w: seq<seq<Entry>>)
    requires analyzed.Valid()
    modifies rfs, analyzed
    ensures analyzed.Valid() && analyzed.items == old(analyzed.items) + {path}
    ensures if path in old(analyzed.items) then w == [] && rfs.started == old(rfs.started)
            else w == [rfs.walks(path)] && rfs.started == old(rfs.started) + [path]
  {
    var seen := analyzed.Contains(path);
    if seen {
      return [];
    }
    analyzed.Add(path);
    var walker := rfs.Walk(path);
    return [walker];
  }

  method ProcessFile(e: Entry, root: string, tracked: Set<string>, ignorer: Ignorer, onDisk: Set<string>,
                     added: Set<string>)
    requires onDisk.Valid() && added.Valid() && onDisk != added && tracked != onDisk && tracked != added
    modifies onDisk, added
    ensures onDisk.Valid() && added.Valid()
    ensures onDisk.items == old(onDisk.items) + if Skipped(ignorer, root, e) then {} else {e.path}
    ensures added.items == old(added.items) + if Skipped(ignorer, root, e) || e.path in tracked.items then {}
      else {e.path}
  {
    if ignorer.MatchesPath(root, e.path) || e.name == IGNORE_FILE_NAME {
      return;
    }
    onDisk.Add(e.path);
    var isTracked := tracked.Contains(e.path);
    if isTracked {
      return;
    }
    added.Add(e.path);
  }

  method VisitEntry(e: Entry, rfs: RemoteFS, root: string, analyzed: Set<string>, tracked: Set<string>,
                    ignorer: Ignorer, onDisk: Set<string>, added: Set<string>)
    returns (w: seq<seq<Entry>>)
    requires analyzed.Valid() && onDisk.Valid() && added.Valid()
    requires analyzed != onDisk && analyzed != added && onDisk != added
    requires tracked != analyzed && tracked != onDisk && tracked != added
    modifies rfs, analyzed, onDisk, added
    ensures analyzed.Valid() && onDisk.Valid() && added.Valid()
    ensures ScanOf(rfs, analyzed, onDisk, added) ==
            ScanEntry(old(ScanOf(rfs, analyzed, onDisk, added)), e, root, tracked.items, ignorer)
    ensures old(rfs.started) <= rfs.started && w == WalkersOf(rfs.walks, rfs.started[|old(rfs.started)|..])
  {
    w := [];
    if e.failed {
      return;
    }
    if e.isDir {
      w := EnqueueSubdir(e.path, rfs, analyzed);
      return;
    }
    ProcessFile(e, root, tracked, ignorer, onDisk, added);
  }

  /** Steps through one walker; files are recorded, directories not seen before get their own walker. */
  method DrainWalker(walker: seq<Entry>, rfs: RemoteFS, root: string, analyzed: Set<string>, tracked: Set<string>,
                     ignorer: Ignorer, onDisk: Set<string>, added: Set<string>)
    returns (newWalkers: seq<seq<Entry>>)
    requires analyzed.Valid() && onDisk.Valid() && added.Valid()
    requires analyzed != onDisk && analyzed != added && onDisk != added
    requires tracked != analyzed && tracked != onDisk && tracked != added
    modifies rfs, analyzed, onDisk, added
    ensures analyzed.Valid() && onDisk.Valid() && added.Valid()
    ensures ScanOf(rfs, analyzed, onDisk, added) ==
            ScanAll(old(ScanOf(rfs, analyzed, onDisk, added)), walker, root, tracked.items, ignorer)
    ensures old(rfs.started) <= rfs.started && newWalkers == WalkersOf(rfs.walks, rfs.started[|old(rfs.started)|..])
  {
    newWalkers := [];
    ghost var from, n := ScanOf(rfs, analyzed, onDisk, added), |rfs.started|;
    for i := 0 to |walker|
      invariant analyzed.Valid() && onDisk.Valid() && added.Valid() && tracked.items == old(tracked.items)
      invariant ScanOf(rfs, analyzed, onDisk, added) == ScanAll(from, walker[..i], root, tracked.items, ignorer)
      invariant old(rfs.started) <= rfs.started && newWalkers == WalkersOf(rfs.walks, rfs.started[n..])
    {
      assert walker[..i + 1][..i] == walker[..i];
      ghost var before := rfs.started;
      var w := VisitEntry(walker[i], rfs, root, analyzed, tracked, ignorer, onDisk, added);
      WalkersSplit(rfs.walks, rfs.started, n, |before|);
      newWalkers := newWalkers + w;
    }
    assert walker[..|walker|] == walker;
  }

  lemma WalkersSplit(walks: string -> seq<Entry>, ds: seq<string>, i: nat, j: nat)
    requires i <= j <= |ds|
    ensures WalkersOf(walks, ds[i..]) == WalkersOf(walks, ds[i..j]) + WalkersOf(walks, ds[j..])
  {
  }

  // ---------------------------------------------------------------- the work list

  /** Nothing is recorded that is not reachable. */
  ghost predicate Sound(walks: string -> seq<Entry>, ignorer: Ignorer, root: string, s: Scan) {
    && (forall d :: d in s.analyzed ==> Reach(Shows(walks), root, d))
    && (forall p :: p in s.onDisk ==> Accepts(walks, ignorer, root, p))
  }

  /** Everything the walkers of the first k started directories show is recorded. */
  ghost predicate Drained(walks: string -> seq<Entry>, ignorer: Ignorer, root: string, s: Scan, k: nat) {
    && k <= |s.started|
    && forall i :: 0 <= i < k ==>
         DirsIn(walks(s.started[i])) <= s.analyzed && FilesIn(walks(s.started[i]), ignorer, root) <= s.onDisk
  }

  ghost predicate Sweep(walks: string -> seq<Entry>, ignorer: Ignorer, root: string, tracked: set<string>,
                        dirs: set<string>, s: Scan, k: nat) {
    && StartedOnce(s) && root in s.analyzed && s.analyzed <= dirs && s.added == s.onDisk - tracked
    && Sound(walks, ignorer, root, s) && Drained(walks, ignorer, root, s, k)
  }

  lemma SoundStep(walks: string -> seq<Entry>, ignorer: Ignorer, root: string, s: Scan, d: string, r: Scan)
    requires Sound(walks, ignorer, root, s) && Reach(Shows(walks), root, d)
    requires r.analyzed == s.analyzed + DirsIn(walks(d)) && r.onDisk == s.onDisk + FilesIn(walks(d), ignorer, root)
    ensures Sound(walks, ignorer, root, r)
  {
    forall e | e in r.analyzed ensures Reach(Shows(walks), root, e) {
      if e !in s.analyzed {
        ReachStep(Shows(walks), root, d, e);
      }
    }
  }

  lemma DrainedStep(walks: string -> seq<Entry>, ignorer: Ignorer, root: string, s: Scan, k: nat, r: Scan)
    requires Drained(walks, ignorer, root, s, k) && k < |s.started| && s.started <= r.started
    requires r.analyzed == s.analyzed + DirsIn(walks(s.started[k]))
    requires r.onDisk == s.onDisk + FilesIn(walks(s.started[k]), ignorer, root)
    ensures Drained(walks, ignorer, root, r, k + 1)
  {
  }

  lemma SweepStep(walks: string -> seq<Entry>, ignorer: Ignorer, root: string, tracked: set<string>,
                  dirs: set<string>, s: Scan, k: nat)
    requires Sweep(walks, ignorer, root, tracked, dirs, s, k) && k < |s.started| && Bounded(walks, root, dirs)
    ensures Sweep(walks, ignorer, root, tracked, dirs, ScanAll(s, walks(s.started[k]), root, tracked, ignorer), k + 1)
  {
    var d := s.started[k];
    var r := ScanAll(s, walks(d), root, tracked, ignorer);
    assert d in Elements(s.started);
    ScanGrows(s, walks(d), root, tracked, ignorer);
    ScanStartsOnce(s, walks(d), root, tracked, ignorer);
    SoundStep(walks, ignorer, root, s, d, r);
    DrainedStep(walks, ignorer, root, s, k, r);
  }

  /** When every started walker is drained, the recorded files are exactly the accepted ones. */
  lemma SweepDone(walks: string -> seq<Entry>, ignorer: Ignorer, root: string, tracked: set<string>,
                  dirs: set<string>, s: Scan)
    requires Sweep(walks, ignorer, root, tracked, dirs, s, |s.started|)
    ensures forall d :: d in s.started <==> Reach(Shows(walks), root, d)
    ensures forall p :: p in s.onDisk <==> Accepts(walks, ignorer, root, p)
    ensures NoRepeats(s.started) && s.added == s.onDisk - tracked
  {
    assert forall d :: d in s.started <==> d in Elements(s.started);
    var closed := iset d | d in s.analyzed;
    forall d, e | d in closed && e in Shows(walks)(d) ensures e in closed {
      assert d in Elements(s.started);
      var i :| 0 <= i < |s.started| && s.started[i] == d;
    }
    ReachClosed(Shows(walks), root, closed);
    forall p | Accepts(walks, ignorer, root, p) ensures p in s.onDisk {
      var d :| Reach(Shows(walks), root, d) && p in FilesIn(walks(d), ignorer, root);
      assert d in Elements(s.started);
      var i :| 0 <= i < |s.started| && s.started[i] == d;
    }
  }

  /** Without a new directory no walker was started. */
  lemma StartedSize(s: Scan, r: Scan)
    requires StartedOnce(s) && StartedOnce(r) && s.started <= r.started && s.analyzed == r.analyzed
    ensures r.started == s.started
  {
    ListLength(s.started, s.analyzed);
    ListLength(r.started, r.analyzed);
  }

  lemma QueueStep(walks: string -> seq<Entry>, before: seq<string>, after: seq<string>, k: nat)
    requires k < |before| && before <= after
    ensures WalkersOf(walks, after[k + 1..]) == WalkersOf(walks, before[k..])[1..] + WalkersOf(walks, after[|before|..])
  {
  }

  /** The queue after one round, and why the round makes progress. */
  lemma RoundFacts(walks: string -> seq<Entry>, ignorer: Ignorer, root: string, tracked: set<string>,
                   dirs: set<string>, s: Scan, k: nat, r: Scan)
    requires Sweep(walks, ignorer, root, tracked, dirs, s, k) && k < |s.started| && Bounded(walks, root, dirs)
    requires r == ScanAll(s, walks(s.started[k]), root, tracked, ignorer)
    ensures Sweep(walks, ignorer, root, tracked, dirs, r, k + 1)
    ensures s.analyzed <= r.analyzed && s.started <= r.started
    ensures WalkersOf(walks, r.started[k + 1..]) ==
            WalkersOf(walks, s.started[k..])[1..] + WalkersOf(walks, r.started[|s.started|..])
    ensures r.analyzed == s.analyzed ==> r.started == s.started
  {
    SweepStep(walks, ignorer, root, tracked, dirs, s, k);
    ScanGrows(s, walks(s.started[k]), root, tracked, ignorer);
    QueueStep(walks, s.started, r.started, k);
    if r.analyzed == s.analyzed {
      StartedSize(s, r);
    }
  }

  /** Before the first round only the root has a walker. */
  lemma SweepStart(walks: string -> seq<Entry>, ignorer: Ignorer, root: string, tracked: set<string>, dirs: set<string>)
    requires Bounded(walks, root, dirs)
    ensures Sweep(walks, ignorer, root, tracked, dirs, Scan({root}, {}, {}, [root]), 0)
  {
  }

  /** One round of the work list: the walker at its head is drained and its new walkers are appended. */
  method Round(queue: seq<seq<Entry>>, ghost k: nat, rfs: RemoteFS, root: string, analyzed: Set<string>,
               tracked: Set<string>, ignorer: Ignorer, onDisk: Set<string>, added: Set<string>)
    returns (rest: seq<seq<Entry>>)
    requires analyzed.Valid() && onDisk.Valid() && added.Valid() && Bounded(rfs.walks, root, rfs.dirs)
    requires analyzed != onDisk && analyzed != added && onDisk != added
    requires tracked != analyzed && tracked != onDisk && tracked != added
    requires Sweep(rfs.walks, ignorer, root, tracked.items, rfs.dirs, ScanOf(rfs, analyzed, onDisk, added), k)
    requires |queue| > 0 && queue == WalkersOf(rfs.walks, rfs.started[k..])
    modifies rfs, analyzed, onDisk, added
    ensures analyzed.Valid() && onDisk.Valid() && added.Valid()
    ensures Sweep(rfs.walks, ignorer, root, tracked.items, rfs.dirs, ScanOf(rfs, analyzed, onDisk, added), k + 1)
    ensures rest == WalkersOf(rfs.walks, rfs.started[k + 1..])
    ensures old(analyzed.items) <= analyzed.items
    ensures analyzed.items == old(analyzed.items) ==> |rest| < |queue|
  {
    ghost var before := ScanOf(rfs, analyzed, onDisk, added);
    var newWalkers := DrainWalker(queue[0], rfs, root, analyzed, tracked, ignorer, onDisk, added);
    rest := queue[1..] + newWalkers;
    RoundFacts(rfs.walks, ignorer, root, tracked.items, rfs.dirs, before, k, ScanOf(rfs, analyzed, onDisk, added));
  }

  /** Drains the queue. It ends because every round starts a walker for a new directory or shortens the queue. */
  method DrainQueue(first: seq<Entry>, rfs: RemoteFS, root: string, analyzed: Set<string>, tracked: Set<string>,
                    ignorer: Ignorer, onDisk: Set<string>, added: Set<string>)
    requires analyzed.Valid() && onDisk.Valid() && added.Valid() && Bounded(rfs.walks, root, rfs.dirs)
    requires analyzed != onDisk && analyzed != added && onDisk != added
    requires tracked != analyzed && tracked != onDisk && tracked != added
    requires Sweep(rfs.walks, ignorer, root, tracked.items, rfs.dirs, ScanOf(rfs, analyzed, onDisk, added), 0)
    requires [first] == WalkersOf(rfs.walks, rfs.started)
    modifies rfs, analyzed, onDisk, added
    ensures onDisk.Valid() && added.Valid()
    ensures Sweep(rfs.walks, ignorer, root, tracked.items, rfs.dirs, ScanOf(rfs, analyzed, onDisk, added),
                  |rfs.started|)
  {
    var queue := [first];
    ghost var k := 0;
    assert rfs.started[0..] == rfs.started;
    while |queue| > 0
      invariant analyzed.Valid() && onDisk.Valid() && added.Valid() && tracked.items == old(tracked.items)
      invariant Sweep(rfs.walks, ignorer, root, tracked.items, rfs.dirs, ScanOf(rfs, analyzed, onDisk, added), k)
      invariant queue == WalkersOf(rfs.walks, rfs.started[k..])
      decreases rfs.dirs - analyzed.items, |queue|
    {
      queue := Round(queue, k, rfs, root, analyzed, tracked, ignorer, onDisk, added);
      k := k + 1;
    }
  }

  /**
    The work list. Each reachable directory gets exactly one walker, and the files found are exactly the
    accepted ones, however much the walkers overlap.
   */
  method HandleCurrentPaths(rfs: RemoteFS, root: string, tracked: Set<string>, ignorer: Ignorer)
    returns (onDisk: Set<string>, added: Set<string>)
    requires tracked.Valid() && rfs.started == [] && Bounded(rfs.walks, root, rfs.dirs)
    modifies rfs
    ensures fresh(onDisk) && fresh(added) && onDisk != added && onDisk.Valid() && added.Valid()
    ensures forall p :: p in onDisk.items <==> Accepts(rfs.walks, ignorer, root, p)
    ensures added.items == onDisk.items - tracked.items
    ensures NoRepeats(rfs.started) && forall d :: d in rfs.started <==> Reach(Shows(rfs.walks), root, d)
  {
    onDisk := new Set<string>();
    added := new Set<string>();
    var analyzed := new Set<string>();
    var first := rfs.Walk(root);
    analyzed.Add(root);
    assert ScanOf(rfs, analyzed, onDisk, added) == Scan({root}, {}, {}, [root]);
    SweepStart(rfs.walks, ignorer, root, tracked.items, rfs.dirs);
    DrainQueue(first, rfs, root, analyzed, tracked, ignorer, onDisk, added);
    SweepDone(rfs.walks, ignorer, root, tracked.items, rfs.dirs, ScanOf(rfs, analyzed, onDisk, added));
  }
}
