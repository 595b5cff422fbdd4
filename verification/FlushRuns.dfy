/**
  When a flush marks what it copied. Flush jobs take no lock and ids are reused, so a mark can hit a row
  that was inserted after the listing; this module says exactly when, and gives the runs.
 */
module FlushRuns {
  import opened Schema
  import opened Database
  import opened Sync
  import opened SyncLaws
  import opened PendingView
  import opened Protocol
  import opened ProtocolLaws
  import Integrity

  // ---------------------------------------------------------------- who marks

  /** The row `f` of `before` is still there and is now marked flushed. */
  ghost predicate BecomesFlushed(before: seq<File>, after: seq<File>, f: File) {
    f in before && !f.flushed && exists r :: r in after && r.id == f.id && KeyOf(r) == KeyOf(f) && r.flushed
  }

  lemma InsertedUnflushed(t: Tables, k: Call, flush: bool, now: Time, f: File)
    requires k.Walked? && Consistent(Effect(t, InsertFiles(NewRows(k.name, k.untracked, flush, now))))
    ensures !BecomesFlushed(t.files, Effect(t, InsertFiles(NewRows(k.name, k.untracked, flush, now))).files, f)
  {
    var rows := FreshRows(t.files, k.name, k.untracked, flush, now);
    var after := t.files + rows;
    if f in t.files && !f.flushed {
      forall r | r in after && r.id == f.id ensures !r.flushed {
        if r in t.files {
          Integrity.SameRow(after, FileId, r, f);
        }
      }
    }
  }

  lemma KeptUnflushed(before: seq<File>, after: seq<File>, f: File)
    requires Distinct(before, FileId) && forall r :: r in after ==> r in before
    ensures !BecomesFlushed(before, after, f)
  {
    if f in before && !f.flushed {
      forall r | r in after && r.id == f.id ensures !r.flushed {
        Integrity.SameRow(before, FileId, r, f);
      }
    }
  }

  lemma OnlyAddInserts(s: State, e: Event)
    requires !e.Add? && !e.FlushMark?
    ensures forall r :: r in Next(s, e).db.files ==> r in s.db.files
  {
  }

  /** No event but a flush job's marking turns a row flushed. */
  lemma OthersDoNotFlush(s: State, e: Event, f: File)
    requires Inv(s) && !e.FlushMark?
    ensures !BecomesFlushed(s.db.files, Next(s, e).db.files, f)
  {
    if e.Add? && Next(s, e).db != s.db {
      var k := s.calls[e.call];
      Integrity.ExecExact(s.db, InsertFiles(NewRows(k.name, k.untracked, e.call in s.free, e.now)));
      InsertedUnflushed(s.db, k, e.call in s.free, e.now, f);
    } else {
      if !e.Add? {
        OnlyAddInserts(s, e);
      }
      KeptUnflushed(s.db.files, Next(s, e).db.files, f);
    }
  }

  /** Marking touches the listed ids only. */
  lemma MarkFlushesListed(files: seq<File>, ids: set<int>, f: File)
    requires Distinct(files, FileId) && BecomesFlushed(files, Mark(files, ids), f)
    ensures f.id in ids
  {
  }

  lemma OnlyMarksFlush(s: State, e: Event, f: File)
    requires Inv(s) && BecomesFlushed(s.db.files, Next(s, e).db.files, f)
    ensures e.FlushMark? && e.ok && e.job in s.flushes && s.flushes[e.job].Copying?
    ensures s.flushes[e.job].copied >= |s.flushes[e.job].pending| && f.id in PendingIds(s.flushes[e.job].pending)
  {
    if !e.FlushMark? {
      OthersDoNotFlush(s, e, f);
    } else {
      KeptUnflushedIfSame(s, e, f);
      MarkFlushesListed(s.db.files, PendingIds(s.flushes[e.job].pending), f);
    }
  }

  lemma KeptUnflushedIfSame(s: State, e: Event, f: File)
    requires Inv(s) && BecomesFlushed(s.db.files, Next(s, e).db.files, f)
    ensures Next(s, e).db != s.db
  {
    if Next(s, e).db == s.db {
      KeptUnflushed(s.db.files, s.db.files, f);
    }
  }

  // ---------------------------------------------------------------- ids given out again

  /**
    This step gives the id to a new row: an insertion that goes through, at a moment when the id is one
    of the next ones above the largest present.
   */
  predicate GivesOut(s: State, e: Event, id: int) {
    && e.Add? && e.ok && e.call in s.calls && s.calls[e.call].Walked?
    && Has(s.db.watchers, WatcherName, s.calls[e.call].name)
    && MaxId(s.db.files, FileId) < id <= MaxId(s.db.files, FileId) + |s.calls[e.call].untracked|
  }

  /** The row `f` is there, same id, same path, same time of detection; its flag is left out. */
  ghost predicate There(files: seq<File>, f: File) {
    exists r :: r in files && r.id == f.id && KeyOf(r) == KeyOf(f) && r.detectedAt == f.detectedAt
  }

  /** What an insertion that goes through does. */
  lemma AddedRowsAre(s: State, e: Event)
    requires e.Add? && e.ok && e.call in s.calls && s.calls[e.call].Walked?
    requires Has(s.db.watchers, WatcherName, s.calls[e.call].name)
    ensures var k := s.calls[e.call];
            Next(s, e).db.files == s.db.files + FreshRows(s.db.files, k.name, k.untracked, e.call in s.free, e.now)
  {
    var k := s.calls[e.call];
    if k.untracked == [] {
      assert FreshRows(s.db.files, k.name, [], e.call in s.free, e.now) == [];
    } else {
      NewRowsAllowed(s.db, k.name, k.untracked, e.call in s.free, e.now);
    }
  }

  /** An insertion that does not go through inserts nothing. */
  lemma NothingAdded(s: State, e: Event)
    requires e.Add? && Inv(s)
    requires e.call in s.calls && s.calls[e.call].Walked? ==>
      !(e.ok && Has(s.db.watchers, WatcherName, s.calls[e.call].name))
    ensures Next(s, e).db.files == s.db.files
  {
    if e.call in s.calls && s.calls[e.call].Walked? && s.calls[e.call].untracked != [] {
      var k := s.calls[e.call];
      NewRowsAllowed(s.db, k.name, k.untracked, e.call in s.free, e.now);
    }
  }

  lemma MarkKeepsRows(files: seq<File>, ids: set<int>, f: File)
    requires f in Mark(files, ids)
    ensures There(files, f)
  {
  }

  /** A row whose id this step does not give out was there before. */
  lemma WasThere(s: State, e: Event, f: File)
    requires Inv(s) && f in Next(s, e).db.files && !GivesOut(s, e, f.id)
    ensures There(s.db.files, f)
  {
    if e.FlushMark? {
      if Next(s, e).db != s.db {
        MarkKeepsRows(s.db.files, PendingIds(s.flushes[e.job].pending), f);
      }
    } else if !e.Add? {
      OnlyAddInserts(s, e);
    } else if e.ok && e.call in s.calls && s.calls[e.call].Walked?
      && Has(s.db.watchers, WatcherName, s.calls[e.call].name) {
      AddedRowsAre(s, e);
    } else {
      NothingAdded(s, e);
    }
  }

  lemma GivenIsNew(s: State, e: Event, id: int)
    requires GivesOut(s, e, id)
    ensures !Has(s.db.files, FileId, id) && Has(Next(s, e).db.files, FileId, id)
  {
    var k, files := s.calls[e.call], s.db.files;
    AddedRowsAre(s, e);
    var rows := FreshRows(files, k.name, k.untracked, e.call in s.free, e.now);
    assert rows[id - MaxId(files, FileId) - 1] in files + rows;
    forall f | f in files ensures f.id != id {
      var i :| 0 <= i < |files| && files[i] == f;
      assert FileId(files[i]) <= MaxId(files, FileId);
    }
  }

  /** A step gives out an id exactly when no row had it and then one has. */
  lemma GivesOutExact(s: State, e: Event, id: int)
    requires Inv(s)
    ensures GivesOut(s, e, id) <==> !Has(s.db.files, FileId, id) && Has(Next(s, e).db.files, FileId, id)
  {
    if GivesOut(s, e, id) {
      GivenIsNew(s, e, id);
    } else if Has(Next(s, e).db.files, FileId, id) {
      var f :| f in Next(s, e).db.files && f.id == id;
      WasThere(s, e, f);
    }
  }

  // ---------------------------------------------------------------- the history of a row

  /** The state after the first `m` events. */
  ghost function At(s: State, es: seq<Event>, m: nat): State
    requires m <= |es|
  {
    Play(s, es[..m])
  }

  /** The row was there after the k-th event and in every state since. */
  ghost predicate ThereSince(s: State, es: seq<Event>, k: nat, f: File) {
    forall m :: k <= m <= |es| ==> There(At(s, es, m).db.files, f)
  }

  ghost predicate GivenOutSince(s: State, es: seq<Event>, k: nat, id: int) {
    exists m :: k <= m < |es| && GivesOut(At(s, es, m), es[m], id)
  }

  lemma AtStep(s: State, es: seq<Event>, m: nat)
    requires m < |es|
    ensures At(s, es, m + 1) == Next(At(s, es, m), es[m])
  {
    assert es[..m + 1][..m] == es[..m];
  }

  lemma InvAt(s: State, es: seq<Event>, m: nat)
    requires Initial(s) && AllOrderly(s, es) && m <= |es|
    ensures Inv(At(s, es, m))
  {
    assert forall i :: 0 <= i < m ==> es[..m][..i] == es[..i];
    InvAlways(s, es[..m]);
  }

  lemma StepBack(s: State, e: Event, f: File)
    requires Inv(s) && There(Next(s, e).db.files, f) && !GivesOut(s, e, f.id)
    ensures There(s.db.files, f)
  {
    var r :| r in Next(s, e).db.files && r.id == f.id && KeyOf(r) == KeyOf(f) && r.detectedAt == f.detectedAt;
    WasThere(s, e, r);
  }

  lemma RunBack(s: State, es: seq<Event>, m: nat, f: File)
    requires Initial(s) && AllOrderly(s, es) && m < |es| && There(At(s, es, m + 1).db.files, f)
    requires !GivesOut(At(s, es, m), es[m], f.id)
    ensures There(At(s, es, m).db.files, f)
  {
    AtStep(s, es, m);
    InvAt(s, es, m);
    StepBack(At(s, es, m), es[m], f);
  }

  /** Backwards from a state with the row to the k-th. */
  lemma {:induction false} ThereBack(s: State, es: seq<Event>, k: nat, m: nat, f: File)
    requires Initial(s) && AllOrderly(s, es) && k <= m <= |es| && There(At(s, es, m).db.files, f)
    requires forall i :: k <= i < m ==> !GivesOut(At(s, es, i), es[i], f.id)
    ensures There(At(s, es, k).db.files, f)
    decreases m - k
  {
    if k < m {
      RunBack(s, es, m - 1, f);
      ThereBack(s, es, k, m - 1, f);
    }
  }

  /** A row of the last state has been there ever since the k-th exactly when its id was not given out since. */
  lemma ThereSinceExact(s: State, es: seq<Event>, k: nat, f: File)
    requires Initial(s) && AllOrderly(s, es) && k <= |es| && f in Play(s, es).db.files
    ensures ThereSince(s, es, k, f) <==> !GivenOutSince(s, es, k, f.id)
  {
    assert es[..|es|] == es;
    if m :| k <= m < |es| && GivesOut(At(s, es, m), es[m], f.id) {
      InvAt(s, es, m);
      GivesOutExact(At(s, es, m), es[m], f.id);
      assert !There(At(s, es, m).db.files, f);
    } else {
      forall m | k <= m <= |es| ensures There(At(s, es, m).db.files, f) {
        ThereBack(s, es, m, |es|, f);
      }
    }
  }

  /** While a row with this id or a larger one is in the table, the id is not given out. */
  lemma TopRowGuards(s: State, es: seq<Event>, k: nat, id: int, top: int)
    requires id <= top && forall m :: k <= m <= |es| ==> Has(At(s, es, m).db.files, FileId, top)
    ensures !GivenOutSince(s, es, k, id)
  {
    forall m | k <= m < |es| ensures !GivesOut(At(s, es, m), es[m], id) {
      var files := At(s, es, m).db.files;
      var r :| r in files && r.id == top;
      var i :| 0 <= i < |files| && files[i] == r;
      assert FileId(files[i]) <= MaxId(files, FileId);
    }
  }

  // ---------------------------------------------------------------- main results

  /** Event `k` is where flush job `job` made the listing it works on. */
  ghost predicate ListedAt(s: State, es: seq<Event>, job: int, k: nat, pending: seq<PendingFlush>) {
    && k < |es| && es[k].FlushList? && es[k].job == job && es[k].ok && job !in At(s, es, k).flushes
    && pending == PendingFor(At(s, es, k).db, es[k].name)
  }

  /** A flush job works on a listing it made at one event of the run. */
  lemma {:induction false} WasListed(s: State, es: seq<Event>, job: int) returns (k: nat)
    requires Initial(s) && job in Play(s, es).flushes && Play(s, es).flushes[job].Copying?
    ensures ListedAt(s, es, job, k, Play(s, es).flushes[job].pending)
  {
    var front, e := es[..|es| - 1], es[|es| - 1];
    var before := Play(s, front);
    if job in before.flushes {
      SamePending(before, e, job);
      k := WasListed(s, front, job);
      assert front[..k] == es[..k];
    } else {
      NewListing(before, e, job);
      k := |front|;
    }
  }

  /** Event `c` is where flush job `job` copied `p`. */
  ghost predicate CopiedAt(s: State, es: seq<Event>, job: int, c: nat, p: PendingFlush) {
    && c < |es| && es[c].FlushCopy? && es[c].job == job && es[c].ok
    && CopiesNext(At(s, es, c), job, p)
  }

  /** The next file this job copies is that of `p`. */
  ghost predicate CopiesNext(s: State, job: int, p: PendingFlush) {
    && job in s.flushes && s.flushes[job].Copying?
    && s.flushes[job].copied < |s.flushes[job].pending| && s.flushes[job].pending[s.flushes[job].copied] == p
  }

  lemma CopiedExtends(s: State, es: seq<Event>, job: int, k: nat, c: nat, pending: seq<PendingFlush>, p: PendingFlush)
    requires es != [] && k < c && ListedAt(s, es[..|es| - 1], job, k, pending) && CopiedAt(s, es[..|es| - 1], job, c, p)
    ensures ListedAt(s, es, job, k, pending) && CopiedAt(s, es, job, c, p)
  {
    assert es[..|es| - 1][..k] == es[..k] && es[..|es| - 1][..c] == es[..c];
  }

  /** The copy made by the last event. */
  lemma CopiedLast(s: State, es: seq<Event>, job: int, i: nat) returns (k: nat)
    requires Initial(s) && es != [] && es[|es| - 1] == FlushCopy(job, true)
    requires var r := Play(s, es[..|es| - 1]);
             job in r.flushes && r.flushes[job].Copying? && i == r.flushes[job].copied < |r.flushes[job].pending|
    ensures ListedAt(s, es, job, k, Play(s, es[..|es| - 1]).flushes[job].pending) && k < |es| - 1
    ensures CopiedAt(s, es, job, |es| - 1, Play(s, es[..|es| - 1]).flushes[job].pending[i])
  {
    k := WasListed(s, es[..|es| - 1], job);
    assert es[..|es| - 1][..k] == es[..k];
  }

  /** What a job has copied, it copied at some event after its listing. */
  lemma {:induction false} WasCopied(s: State, es: seq<Event>, job: int, i: nat) returns (k: nat, c: nat)
    requires Initial(s) && job in Play(s, es).flushes && Play(s, es).flushes[job].Copying?
    requires i < Play(s, es).flushes[job].copied <= |Play(s, es).flushes[job].pending|
    ensures ListedAt(s, es, job, k, Play(s, es).flushes[job].pending) && k < c
    ensures CopiedAt(s, es, job, c, Play(s, es).flushes[job].pending[i])
  {
    var front, e := es[..|es| - 1], es[|es| - 1];
    CopiedOneMore(Play(s, front), e, job);
    if i < Play(s, front).flushes[job].copied {
      k, c := WasCopied(s, front, job, i);
      CopiedExtends(s, es, job, k, c, Play(s, front).flushes[job].pending, Play(s, front).flushes[job].pending[i]);
    } else {
      assert e == FlushCopy(job, true);
      k := CopiedLast(s, es, job, i);
      c := |front|;
    }
  }

  /** A job that has copied something was copying before, and copies one file in a step at most. */
  lemma CopiedOneMore(s: State, e: Event, job: int)
    requires job in Next(s, e).flushes && Next(s, e).flushes[job].Copying? && Next(s, e).flushes[job].copied > 0
    ensures job in s.flushes && s.flushes[job].Copying? && s.flushes[job].pending == Next(s, e).flushes[job].pending
    ensures var m, n := s.flushes[job].copied, Next(s, e).flushes[job].copied;
            n == m || (n == m + 1 && m < |s.flushes[job].pending| && e.FlushCopy? && e.job == job && e.ok)
  {
  }

  lemma SamePending(s: State, e: Event, job: int)
    requires job in s.flushes && job in Next(s, e).flushes && Next(s, e).flushes[job].Copying?
    ensures s.flushes[job].Copying? && s.flushes[job].pending == Next(s, e).flushes[job].pending
  {
  }

  lemma NewListing(s: State, e: Event, job: int)
    requires job !in s.flushes && job in Next(s, e).flushes && Next(s, e).flushes[job].Copying?
    ensures e.FlushList? && e.job == job && e.ok && Next(s, e).flushes[job].pending == PendingFor(s.db, e.name)
  {
  }

  /** The row that a listed item describes. */
  lemma ListedRow(t: Tables, name: string, p: PendingFlush) returns (g: File)
    requires Consistent(t) && p in PendingFor(t, name)
    ensures g in t.files && g.id == p.fileId && Describes(t, g, p) && KeyOf(g) == KeyOfPending(p)
  {
    PendingForExact(t, name, p);
    g :| g in t.files && g.watcherName == name && Waiting(t, g) && Describes(t, g, p);
    PendingRowOf(t, name, p, g);
  }

  /** The row that bears the id of `p` is at the path that `p` names. */
  ghost predicate Current(files: seq<File>, p: PendingFlush) {
    exists r :: r in files && r.id == p.fileId && KeyOf(r) == KeyOfPending(p)
  }

  /**
    In every run, a row turns from unflushed to flushed only when a flush job marks it. That job listed a
    row under this id at some event k, and copied the file it had listed at a later event c.
    The marked row is the listed one, in the table with its path and its time of detection in every
    state since k, if and only if its id was not given out since k. The job copied the marked row's own file,
    while that row was in the table, if and only if at c the id was still, or again, that of a row at the listed
    path and was not given out since c.
   */
  lemma FlushedOnlyAfterCopy(s: State, es: seq<Event>, e: Event, f: File)
    returns (k: nat, c: nat, g: File, p: PendingFlush)
    requires Initial(s) && AllOrderly(s, es)
    requires BecomesFlushed(Play(s, es).db.files, Next(Play(s, es), e).db.files, f)
    ensures e.FlushMark? && e.ok && e.job in Play(s, es).flushes && Play(s, es).flushes[e.job].Copying?
    ensures ListedAt(s, es, e.job, k, Play(s, es).flushes[e.job].pending) && k < c && CopiedAt(s, es, e.job, c, p)
    ensures var listed := At(s, es, k).db;
            && g in listed.files && g.id == f.id && p in PendingFor(listed, es[k].name) && Describes(listed, g, p)
            && KeyOfPending(p) == KeyOf(g) && Copy(e.job, p) in Play(s, es).copies
    ensures ThereSince(s, es, k, f) <==> !GivenOutSince(s, es, k, f.id)
    ensures ThereSince(s, es, k, f) ==> KeyOf(f) == KeyOf(g) && f.detectedAt == g.detectedAt
    ensures KeyOf(f) == KeyOfPending(p) && ThereSince(s, es, c, f) <==>
            Current(At(s, es, c).db.files, p) && !GivenOutSince(s, es, c, f.id)
  {
    InvAlways(s, es);
    var r := Play(s, es);
    OnlyMarksFlush(r, e, f);
    var job := r.flushes[e.job];
    p :| p in job.pending && p.fileId == f.id;
    var i :| 0 <= i < |job.pending| && job.pending[i] == p;
    assert FlushOk(r.copies, e.job, job) && Copy(e.job, job.pending[i]) in r.copies;
    k, c := WasCopied(s, es, e.job, i);
    InvAt(s, es, k);
    g := ListedRow(At(s, es, k).db, es[k].name, p);
    ThereSinceExact(s, es, k, f);
    if ThereSince(s, es, k, f) {
      SameAsListed(At(s, es, k).db.files, f, g);
    }
    CopiedOwnFile(s, es, c, f, p);
  }

  lemma CopiedOwnFile(s: State, es: seq<Event>, c: nat, f: File, p: PendingFlush)
    requires Initial(s) && AllOrderly(s, es) && c <= |es| && f in Play(s, es).db.files && p.fileId == f.id
    ensures KeyOf(f) == KeyOfPending(p) && ThereSince(s, es, c, f) <==>
            Current(At(s, es, c).db.files, p) && !GivenOutSince(s, es, c, f.id)
  {
    ThereSinceExact(s, es, c, f);
    InvAt(s, es, c);
    if ThereSince(s, es, c, f) {
      var files := At(s, es, c).db.files;
      assert There(files, f);
      if Current(files, p) {
        var r :| r in files && r.id == p.fileId && KeyOf(r) == KeyOfPending(p);
        SameAsListed(files, f, r);
      }
    }
  }

  lemma SameAsListed(files: seq<File>, f: File, g: File)
    requires Distinct(files, FileId) && There(files, f) && g in files && g.id == f.id
    ensures KeyOf(f) == KeyOf(g) && f.detectedAt == g.detectedAt
  {
  }

  /**
    A flush marks only what it copied whenever some row whose id is at least every listed id stays in
    the table from the listing to the mark.
   */
  lemma TopRowMakesFlushRight(s: State, es: seq<Event>, k: nat, job: int, top: int, f: File)
    requires Initial(s) && AllOrderly(s, es) && k < |es|
    requires job in Play(s, es).flushes && Play(s, es).flushes[job].Copying?
    requires ListedAt(s, es, job, k, Play(s, es).flushes[job].pending)
    requires forall p :: p in Play(s, es).flushes[job].pending ==> p.fileId <= top
    requires forall m :: k <= m <= |es| ==> Has(At(s, es, m).db.files, FileId, top)
    requires BecomesFlushed(Play(s, es).db.files, Next(Play(s, es), FlushMark(job, true)).db.files, f)
    ensures ThereSince(s, es, k, f)
    ensures exists p ::
              p in Play(s, es).flushes[job].pending && p.fileId == f.id && KeyOfPending(p) == KeyOf(f)
              && Copy(job, p) in Play(s, es).copies
  {
    InvAlways(s, es);
    var r := Play(s, es);
    OnlyMarksFlush(r, FlushMark(job, true), f);
    var p :| p in r.flushes[job].pending && p.fileId == f.id;
    var i :| 0 <= i < |r.flushes[job].pending| && r.flushes[job].pending[i] == p;
    assert FlushOk(r.copies, job, r.flushes[job]) && Copy(job, r.flushes[job].pending[i]) in r.copies;
    TopRowGuards(s, es, k, f.id, top);
    ThereSinceExact(s, es, k, f);
    InvAt(s, es, k);
    var g := ListedRow(At(s, es, k).db, es[k].name, p);
    SameAsListed(At(s, es, k).db.files, f, g);
  }
}
