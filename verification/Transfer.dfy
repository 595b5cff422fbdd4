/**
  What a flush does to the files of the machines involved, on values.
 */
module Transfer {
  import opened Schema
  import opened PendingView
  import opened SyncLaws
  import Integrity
  import Paths

  datatype FileData = FileData(content: string, mode: int, modTime: Time)

  /**
    Which host a set of connection details leads to. Any function will do: two machine rows may well lead
    to one host, since nothing makes their addresses distinct.
   */
  type Hosts = MachineDetails -> string

  /** A path on a host. */
  datatype Place = Place(host: string, path: string)

  /** The files of all hosts. */
  type Files = map<Place, FileData>

  function Source(host: Hosts, p: PendingFlush): Place {
    Place(host(p.source), Paths.Join(p.filePath, p.fileName))
  }

  function Target(host: Hosts, p: PendingFlush): Place {
    Place(host(p.target), Paths.Join(p.targetPath, p.fileName))
  }

  /**
    One successful copy: content, mode and modification time of the source. The destination is created,
    and so emptied, before anything is read from the source.
   */
  function CopyFile(d: Files, src: Place, dst: Place): Files {
    if src !in d then d
    else d[dst := FileData(if src == dst then "" else d[src].content, d[src].mode, d[src].modTime)]
  }

  function CopyAll(host: Hosts, d: Files, ps: seq<PendingFlush>): Files {
    if ps == [] then d
    else
      var last := ps[|ps| - 1];
      CopyFile(CopyAll(host, d, ps[..|ps| - 1]), Source(host, last), Target(host, last))
  }

  /** Each source was there when its turn came. */
  ghost predicate Feasible(host: Hosts, d: Files, ps: seq<PendingFlush>) {
    ps == [] ||
    (Feasible(host, d, ps[..|ps| - 1]) && Source(host, ps[|ps| - 1]) in CopyAll(host, d, ps[..|ps| - 1]))
  }

  lemma {:induction false} FeasibleAt(host: Hosts, d: Files, ps: seq<PendingFlush>, i: nat)
    requires Feasible(host, d, ps) && i < |ps|
    ensures Source(host, ps[i]) in CopyAll(host, d, ps[..i])
  {
    if i < |ps| - 1 {
      FeasibleAt(host, d, ps[..|ps| - 1], i);
      assert ps[..|ps| - 1][..i] == ps[..i];
    }
  }

  /** Nothing but destinations of listed files differs. */
  ghost predicate OnlyTargets(host: Hosts, ps: seq<PendingFlush>, d: Files, e: Files) {
    forall x :: (forall p :: p in ps ==> Target(host, p) != x) ==> Same(e, d, x)
  }

  /** A place holds the same file, or no file, in both. */
  predicate Same(d: Files, e: Files, x: Place) {
    (x in d <==> x in e) && (x in d ==> d[x] == e[x])
  }

  /** Only destinations change. */
  lemma {:induction false} OthersKept(host: Hosts, d: Files, ps: seq<PendingFlush>, x: Place)
    requires forall i :: 0 <= i < |ps| ==> Target(host, ps[i]) != x
    ensures Same(CopyAll(host, d, ps), d, x)
  {
    if ps != [] {
      OthersKept(host, d, ps[..|ps| - 1], x);
    }
  }

  /** A name a directory can hold. */
  predicate ProperName(n: string) {
    Paths.SlashFree(n) && n != "" && n != "." && n != ".."
  }

  lemma BaseOfJoin(dir: string, n: string)
    requires ProperName(n)
    ensures Paths.Base(Paths.Join(dir, n)) == n
  {
    if dir == "" {
      Paths.SplitSlashFree(n);
      assert Paths.Resolve(false, [], [n]) == [n] by { assert [n][1..] == [] && [] + [n] == [n]; }
      assert n[0] != '/';
      assert Paths.Clean(n) == n;
      Paths.DirBaseOfConcat("", n);
      assert "" + n == n;
    } else {
      var r, parts := Paths.Rooted(dir), Paths.Parts(dir);
      Paths.CleanAppend(dir, n);
      assert [n][1..] == [];
      Paths.RenderSnoc(r, parts, n);
      Paths.DirBaseOfConcat(Paths.Before(r, parts), n);
    }
  }

  /** What the listing of a watcher guarantees about its entries. */
  ghost predicate Listing(ps: seq<PendingFlush>) {
    && (forall p, q :: p in ps && q in ps ==>
        p.source == q.source && p.target == q.target && p.targetPath == q.targetPath)
    && (forall p :: p in ps ==> ProperName(p.fileName) && Paths.Base(Paths.Join(p.filePath, p.fileName)) == p.fileName)
  }

  lemma PendingIsListing(t: Tables, watcher: string)
    requires Consistent(t) && AllKeyed(t.files) && forall f :: f in t.files ==> ProperName(f.fileName)
    ensures Listing(PendingFor(t, watcher))
  {
    var ps := PendingFor(t, watcher);
    forall p, q | p in ps && q in ps
      ensures p.source == q.source && p.target == q.target && p.targetPath == q.targetPath {
      PendingMachinesAgree(t, watcher, p, q);
    }
    forall p | p in ps ensures ProperName(p.fileName) && Paths.Base(Paths.Join(p.filePath, p.fileName)) == p.fileName {
      PendingForExact(t, watcher, p);
      var f :| f in t.files && f.watcherName == watcher && Describes(t, f, p);
      assert WellKeyed(f);
    }
  }

  /** A destination that is a pending source is that file's own destination. */
  lemma OverlapIsSelf(host: Hosts, ps: seq<PendingFlush>, p: PendingFlush, q: PendingFlush)
    requires Listing(ps) && p in ps && q in ps && Target(host, q) == Source(host, p)
    ensures Target(host, p) == Source(host, p)
  {
    BaseOfJoin(q.targetPath, q.fileName);
  }

  /** The last listed file with this destination. */
  ghost predicate LastFor(host: Hosts, ps: seq<PendingFlush>, i: nat) {
    i < |ps| && forall k :: i < k < |ps| ==> Target(host, ps[k]) != Target(host, ps[i])
  }

  lemma {:induction false} LastStays(host: Hosts, d: Files, ps: seq<PendingFlush>, i: nat)
    requires LastFor(host, ps, i)
    ensures Same(CopyAll(host, d, ps), CopyAll(host, d, ps[..i + 1]), Target(host, ps[i]))
  {
    if i + 1 < |ps| {
      var front := ps[..|ps| - 1];
      assert LastFor(host, front, i) && front[..i + 1] == ps[..i + 1] && front[i] == ps[i];
      LastStays(host, d, front, i);
      assert Target(host, ps[|ps| - 1]) != Target(host, ps[i]);
    } else {
      assert ps[..i + 1] == ps;
    }
  }

  /**
    After a flush each destination holds the content, mode and modification time that the last listed
    file with that name had before the flush, unless that file already lay at its own destination: then
    it is left empty, with the mode and time it had when its turn came. So the content is delivered
    exactly when the file lay on another host, at another path, or was empty.
   */
  lemma FlushDelivers(host: Hosts, d: Files, ps: seq<PendingFlush>, i: nat)
    requires Listing(ps) && Feasible(host, d, ps) && LastFor(host, ps, i)
    ensures var src, dst := Source(host, ps[i]), Target(host, ps[i]);
            && dst in CopyAll(host, d, ps)
            && (src != dst ==> src in d && CopyAll(host, d, ps)[dst] == d[src])
            && (src == dst ==> var before := CopyAll(host, d, ps[..i]);
                  src in before && CopyAll(host, d, ps)[dst] == FileData("", before[src].mode, before[src].modTime))
            && (src in d ==> (CopyAll(host, d, ps)[dst].content == d[src].content <==>
                              src != dst || d[src].content == ""))
  {
    var before := CopyAll(host, d, ps[..i]);
    LastStays(host, d, ps, i);
    FeasibleAt(host, d, ps, i);
    assert ps[..i + 1][..i] == ps[..i];
    assert CopyAll(host, d, ps[..i + 1]) == CopyFile(before, Source(host, ps[i]), Target(host, ps[i]));
    if Source(host, ps[i]) != Target(host, ps[i]) {
      forall k | 0 <= k < i ensures Target(host, ps[..i][k]) != Source(host, ps[i]) {
        if Target(host, ps[k]) == Source(host, ps[i]) {
          OverlapIsSelf(host, ps, ps[i], ps[k]);
        }
      }
      OthersKept(host, d, ps[..i], Source(host, ps[i]));
    }
  }

  // ---------------------------------------------------------------- nothing stays pending

  function IdsOf(ps: seq<PendingFlush>): seq<int> {
    seq(|ps|, i requires 0 <= i < |ps| => ps[i].fileId)
  }

  lemma WaitingIsListed(t: Tables, f: File)
    requires Consistent(t) && f in t.files && Waiting(t, f)
    ensures exists p :: p in PendingFor(t, f.watcherName) && p.fileId == f.id
  {
    JoinIsFilter(t);
    var rows, view := WaitingRows(t, t.files), JoinView(t);
    assert f in rows;
    var i :| 0 <= i < |rows| && rows[i] == f;
    assert Describes(t, f, view[i]);
    RowIsPending(t, f, view[i]);
    var r, w, m, tm := DescribingRows(t, f, view[i]);
  }

  /** No row of the watcher waits once every listed id is marked. */
  lemma MarkedRowDone(t: Tables, watcher: string, ids: set<int>, g: File)
    requires Consistent(t) && forall p :: p in PendingFor(t, watcher) ==> p.fileId in ids
    requires g in Mark(t.files, ids) && g.watcherName == watcher
    ensures !Waiting(Effect(t, MarkFiles(ids)), g)
  {
    var marked := Mark(t.files, ids);
    var i :| 0 <= i < |marked| && marked[i] == g;
    var f := t.files[i];
    if Waiting(t, f) {
      WaitingIsListed(t, f);
    }
  }

  lemma NoWaitingNoPending(t: Tables, watcher: string)
    requires Consistent(t) && forall g :: g in t.files && g.watcherName == watcher ==> !Waiting(t, g)
    ensures PendingFor(t, watcher) == []
  {
    var left := PendingFor(t, watcher);
    if left != [] {
      PendingForExact(t, watcher, left[0]);
    }
  }

  /** Once every listed id is marked, the watcher has no pending file left. */
  lemma NothingLeftPending(t: Tables, watcher: string, ids: set<int>)
    requires Consistent(t) && forall p :: p in PendingFor(t, watcher) ==> p.fileId in ids
    ensures PendingFor(Effect(t, MarkFiles(ids)), watcher) == []
  {
    var after := Effect(t, MarkFiles(ids));
    Integrity.ExecExact(t, MarkFiles(ids));
    forall g | g in after.files && g.watcherName == watcher ensures !Waiting(after, g) {
      MarkedRowDone(t, watcher, ids, g);
    }
    NoWaitingNoPending(after, watcher);
  }
}
