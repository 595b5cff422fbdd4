/**
  Runs in which a flush job's listed id is given to a new row before the mark: two in which the mark is wrong,
  and one in which it is right.
 */
module ReusedIds {
  import opened Schema
  import opened Database
  import opened Sync
  import opened SyncLaws
  import opened PendingView
  import opened Protocol
  import opened ProtocolLaws
  import opened FlushRuns
  import opened OneFileServer
  import Paths

  /** A run continued by the events of one call with nothing in between. */
  ghost function ThenSolo(es: seq<Event>, c: int, name: string, accepted: set<string>, order: seq<string>,
                          env: Env): seq<Event> {
    es + [Begin(c, name)] + [Acquire(c)] + [List(c, env.dialOk && env.listOk)] + [Walk(c, accepted, order)]
    + [Add(c, env.addOk, env.now)] + [Remove(c, env.removeOk)] + [Release(c)]
  }

  lemma PlaySolo(s: State, es: seq<Event>, c: int, name: string, accepted: set<string>, order: seq<string>, env: Env)
    ensures Play(s, ThenSolo(es, c, name, accepted, order, env)) == Solo(Play(s, es), c, name, accepted, order, env)
  {
    var e1 := es + [Begin(c, name)];
    var e2 := e1 + [Acquire(c)];
    var e3 := e2 + [List(c, env.dialOk && env.listOk)];
    var e4 := e3 + [Walk(c, accepted, order)];
    var e5 := e4 + [Add(c, env.addOk, env.now)];
    var e6 := e5 + [Remove(c, env.removeOk)];
    PlaySnoc(s, es, Begin(c, name));
    PlaySnoc(s, e1, Acquire(c));
    PlaySnoc(s, e2, List(c, env.dialOk && env.listOk));
    PlaySnoc(s, e3, Walk(c, accepted, order));
    PlaySnoc(s, e4, Add(c, env.addOk, env.now));
    PlaySnoc(s, e5, Remove(c, env.removeOk));
    PlaySnoc(s, e6, Release(c));
  }

  lemma ListsOne(s: State, item: PendingFlush)
    requires s.flushes == map[] && PendingFor(s.db, "w") == [item]
    ensures Next(s, FlushList(0, "w", true)) == s.(flushes := map[0 := Copying([item], 0)])
  {
  }

  lemma CopiesOne(s: State, item: PendingFlush)
    requires s.flushes == map[0 := Copying([item], 0)]
    ensures Next(s, FlushCopy(0, true))
      == s.(flushes := map[0 := Copying([item], 1)], copies := s.copies + [Copy(0, item)])
  {
    assert s.flushes[0 := Copying([item], 1)] == map[0 := Copying([item], 1)];
  }

  function ListedStart(): seq<Event> {
    [FlushList(0, "w", true)]
  }

  function CopiedStart(): seq<Event> {
    ListedStart() + [FlushCopy(0, true)]
  }

  /** The flush job lists that file, */
  lemma JustListed(p: string) returns (item: PendingFlush)
    requires Paths.IsClean(p)
    ensures item.fileId == 1 && KeyOfPending(item) == PathKey("w", p)
    ensures Play(OneFile(p), ListedStart()) == OneFile(p).(flushes := map[0 := Copying([item], 0)])
  {
    item := OneListed(p);
    ListsOne(OneFile(p), item);
    PlayOne(OneFile(p), FlushList(0, "w", true));
  }

  /** and copies it. */
  lemma ListedAndCopied(p: string) returns (item: PendingFlush)
    requires Paths.IsClean(p)
    ensures item.fileId == 1 && KeyOfPending(item) == PathKey("w", p)
    ensures Play(OneFile(p), CopiedStart())
            == OneFile(p).(flushes := map[0 := Copying([item], 1)], copies := [Copy(0, item)])
  {
    item := JustListed(p);
    CopiesOne(OneFile(p).(flushes := map[0 := Copying([item], 0)]), item);
    PlaySnoc(OneFile(p), ListedStart(), FlushCopy(0, true));
  }

  /** A sync that finds the disk empty deletes the row; the flush job is not told. */
  lemma EmptiedByFirstSync(p: string, s: State, env: Env)
    requires Paths.IsClean(p) && Smooth(env)
    requires s.db == OneFile(p).db && s.held == {} && s.calls == map[] && s.free == {}
    ensures Solo(s, 1, "w", {}, [], env) == s.(db := s.db.(files := []), calls := map[1 := Closed])
  {
    FreshRowKeyed("w", p, false, 0, 1);
    OneFileInitial(p);
    EmptyOrder(env);
    assert Untracked(s.db.files, "w", {}) == {};
    SoloIsSync(s, 1, "w", {}, env);
    EmptiedTable(p, env);
    assert s.calls[1 := Closed] == map[1 := Closed];
  }

  lemma EmptiedTable(p: string, env: Env)
    requires Paths.IsClean(p) && Smooth(env)
    ensures SyncOutcome(OneFile(p).db, "w", {}, false, env).0 == OneFile(p).db.(files := [])
  {
    var t := OneFile(p).db;
    FreshRowKeyed("w", p, false, 0, 1);
    OneFileInitial(p);
    EmptyOrder(env);
    assert Untracked(t.files, "w", {}) == {};
    SyncExact(t, "w", {}, false, env);
    assert Additions(t.files, "w", {}, false, env) == [];
    SmoothSucceeds(t, "w", {}, env);
    assert Surviving(t.files, "w", {}) == [];
  }

  /** Syncing one new file into an empty table. */
  lemma RefilledTable(q: string, t: Tables, env: Env)
    requires Paths.IsClean(q) && Smooth(env) && t.files == [] && Has(t.watchers, WatcherName, "w")
    ensures var row := NewRow("w", q, false, env.now).Row(1);
            && env.order(Untracked([], "w", {q})) == [q]
            && Additions([], "w", {q}, false, env) == [row]
            && SyncOutcome(t, "w", {q}, false, env).0 == t.(files := [row])
  {
    assert Untracked([], "w", {q}) == {q};
    SingleOrder(env, q);
    SyncExact(t, "w", {q}, false, env);
    assert SyncOutcome(t, "w", {q}, false, env).1.Ok?;
    assert Surviving([], "w", {q}) == [];
  }

  lemma StillKnown(p: string, t: Tables)
    requires t == OneFile(p).db.(files := [])
    ensures Known(t, "w") && Has(t.watchers, WatcherName, "w")
  {
    OneFileConsistent(p);
  }

  /** The next sync finds one file; its row gets the id that has become free. */
  lemma RefilledBySecondSync(q: string, s: State, env: Env)
    requires Paths.IsClean(q) && Smooth(env)
    requires s.db == OneFile(q).db.(files := []) && s.held == {} && s.calls == map[1 := Closed] && s.free == {}
    ensures Solo(s, 2, "w", {q}, [q], env)
            == SetCall(s, 2, Closed).(db := s.db.(files := [NewRow("w", q, false, env.now).Row(1)]))
  {
    StillKnown(q, s.db);
    RefilledTable(q, s.db, env);
    SoloIsSync(s, 2, "w", {q}, env);
  }

  /** No job skips the lock, and walks are clean. */
  ghost predicate Locked(es: seq<Event>) {
    forall i :: 0 <= i < |es| ==> !es[i].Enter? && (es[i].Walk? ==> AllClean(es[i].accepted))
  }

  /** Such runs are orderly. */
  lemma LockedRunOrderly(s: State, es: seq<Event>)
    requires s.free == {} && Locked(es)
    ensures AllOrderly(s, es)
  {
    forall i | 0 <= i < |es| ensures Orderly(Play(s, es[..i]), es[i]) {
      StaysLocked(s, es[..i]);
    }
  }

  lemma SoloLocked(es: seq<Event>, c: int, name: string, accepted: set<string>, order: seq<string>, env: Env)
    requires Locked(es) && AllClean(accepted)
    ensures Locked(ThenSolo(es, c, name, accepted, order, env)) && es <= ThenSolo(es, c, name, accepted, order, env)
  {
  }

  lemma {:induction false} StaysLocked(s: State, es: seq<Event>)
    requires s.free == {} && Locked(es)
    ensures Play(s, es).free == {}
  {
    if es != [] {
      StaysLocked(s, es[..|es| - 1]);
      FreeKept(Play(s, es[..|es| - 1]), es[|es| - 1]);
    }
  }

  lemma FreeKept(s: State, e: Event)
    requires !e.Enter?
    ensures Next(s, e).free == s.free
  {
  }

  lemma MarkedAnyway(s: State, item: PendingFlush, f: File)
    requires s.db.files == [f] && !f.flushed && f.id == item.fileId
    requires 0 in s.flushes && s.flushes[0].Copying? && s.flushes[0].pending == [item] && s.flushes[0].copied == 1
    ensures BecomesFlushed(s.db.files, Next(s, FlushMark(0, true)).db.files, f)
  {
    var marked := Mark([f], PendingIds([item]));
    assert item in [item] && f in [f];
    assert marked[0] in marked && marked[0].flushed && KeyOf(marked[0]) == KeyOf(f);
  }

  /** After these events, sync an empty disk, */
  ghost function Emptied(start: seq<Event>, env: Env): seq<Event> {
    ThenSolo(start, 1, "w", {}, [], env)
  }

  /** then a disk with only `q`. */
  ghost function Refilled(start: seq<Event>, q: string, env: Env): seq<Event> {
    ThenSolo(Emptied(start, env), 2, "w", {q}, [q], env)
  }

  lemma RefilledOrderly(p: string, q: string, start: seq<Event>, env: Env)
    requires Paths.IsClean(p) && Paths.IsClean(q) && Locked(start)
    ensures Locked(Refilled(start, q, env)) && start <= Emptied(start, env) <= Refilled(start, q, env)
  {
    SoloLocked(start, 1, "w", {}, [], env);
    SoloLocked(Emptied(start, env), 2, "w", {q}, [q], env);
  }

  /**
    After the first sync the table is empty; after the second it holds a new row with the old id. The
    flush job is not told.
   */
  lemma RefilledEnds(p: string, q: string, start: seq<Event>, flushes: map<int, FlushJob>, copies: seq<Copy>, env: Env)
    requires Paths.IsClean(p) && Paths.IsClean(q) && Smooth(env)
    requires Play(OneFile(p), start) == OneFile(p).(flushes := flushes, copies := copies)
    ensures var s := Play(OneFile(p), Emptied(start, env)); s.db.files == [] && s.copies == copies
    ensures var s := Play(OneFile(p), Refilled(start, q, env));
            s.db.files == [NewRow("w", q, false, env.now).Row(1)] && s.copies == copies && s.flushes == flushes
  {
    PlaySolo(OneFile(p), start, 1, "w", {}, [], env);
    EmptiedByFirstSync(p, Play(OneFile(p), start), env);
    PlaySolo(OneFile(p), Emptied(start, env), 2, "w", {q}, [q], env);
    RefilledBySecondSync(q, Play(OneFile(p), Emptied(start, env)), env);
  }

  /** List and copy `p`; then the two syncs; nothing is copied any more. */
  ghost function ReuseRun(q: string, env: Env): seq<Event> {
    Refilled(CopiedStart(), q, env)
  }

  lemma ReuseRunEnds(p: string, q: string, env: Env) returns (item: PendingFlush)
    requires Paths.IsClean(p) && Paths.IsClean(q) && Smooth(env)
    ensures item.fileId == 1 && KeyOfPending(item) == PathKey("w", p)
    ensures var s, f := Play(OneFile(p), ReuseRun(q, env)), NewRow("w", q, false, env.now).Row(1);
            && s.db.files == [f] && s.copies == [Copy(0, item)]
            && BecomesFlushed(s.db.files, Next(s, FlushMark(0, true)).db.files, f) && FullPath(f) == q
  {
    item := ListedAndCopied(p);
    RefilledEnds(p, q, CopiedStart(), map[0 := Copying([item], 1)], [Copy(0, item)], env);
    FreshRowKeyed("w", q, false, env.now, 1);
    MarkedAnyway(Play(OneFile(p), ReuseRun(q, env)), item, NewRow("w", q, false, env.now).Row(1));
  }

  /** A run of that server in which nobody skips the lock. */
  lemma OneFileOrderly(p: string, es: seq<Event>)
    requires Paths.IsClean(p) && Locked(es)
    ensures Initial(OneFile(p)) && AllOrderly(OneFile(p), es)
  {
    OneFileInitial(p);
    LockedRunOrderly(OneFile(p), es);
  }

  lemma StartsLocked()
    ensures Locked(ListedStart()) && Locked(CopiedStart())
  {
  }

  lemma ReuseRunOrderly(p: string, q: string, env: Env)
    requires Paths.IsClean(p) && Paths.IsClean(q)
    ensures Initial(OneFile(p)) && AllOrderly(OneFile(p), ReuseRun(q, env))
    ensures Emptied(CopiedStart(), env) <= ReuseRun(q, env)
  {
    StartsLocked();
    RefilledOrderly(p, q, CopiedStart(), env);
    OneFileOrderly(p, ReuseRun(q, env));
  }

  /**
    Flush jobs take no lock and ids are reused: for any two distinct clean paths there is a run in
    which the row of `q` is marked flushed although only `p` was ever copied.
   */
  lemma ReusedIdMarksWrongFile(p: string, q: string, env: Env)
    requires Paths.IsClean(p) && Paths.IsClean(q) && p != q && Smooth(env)
    ensures Initial(OneFile(p)) && AllOrderly(OneFile(p), ReuseRun(q, env))
    ensures var s, f := Play(OneFile(p), ReuseRun(q, env)), NewRow("w", q, false, env.now).Row(1);
            && BecomesFlushed(s.db.files, Next(s, FlushMark(0, true)).db.files, f) && FullPath(f) == q
            && forall c :: c in s.copies ==> KeyOfPending(c.item) != KeyOf(f)
  {
    ReuseRunOrderly(p, q, env);
    Paths.PathKeyInjective(p, q);
    var item := ReuseRunEnds(p, q, env);
  }

  /** When the table was empty, the row cannot have been there ever since. */
  lemma NotThereSince(s: State, es: seq<Event>, m: nat, f: File)
    requires Initial(s) && AllOrderly(s, es) && m <= |es| && At(s, es, m).db.files == [] && f in Play(s, es).db.files
    ensures !ThereSince(s, es, 0, f) && GivenOutSince(s, es, 0, f.id)
  {
    assert !There(At(s, es, m).db.files, f);
    ThereSinceExact(s, es, 0, f);
  }

  lemma PrefixAt(s: State, start: seq<Event>, es: seq<Event>)
    requires start <= es
    ensures At(s, es, |start|) == Play(s, start)
  {
    assert es[..|start|] == start;
  }

  /**
    The same with one path: a file is listed and copied, vanishes, and comes back. Its new row, inserted
    after the last copy under the old id, is marked flushed although the file that came back was never copied.
   */
  lemma ReusedIdMarksUncopiedRow(p: string, env: Env)
    requires Paths.IsClean(p) && Smooth(env)
    ensures Initial(OneFile(p)) && AllOrderly(OneFile(p), ReuseRun(p, env))
    ensures var gone, s := Play(OneFile(p), Emptied(CopiedStart(), env)), Play(OneFile(p), ReuseRun(p, env));
            var f := NewRow("w", p, false, env.now).Row(1);
            && BecomesFlushed(s.db.files, Next(s, FlushMark(0, true)).db.files, f) && FullPath(f) == p
            && Emptied(CopiedStart(), env) <= ReuseRun(p, env) && gone.db.files == [] && gone.copies == s.copies
            && GivenOutSince(OneFile(p), ReuseRun(p, env), 0, f.id) && !ThereSince(OneFile(p), ReuseRun(p, env), 0, f)
  {
    ReuseRunOrderly(p, p, env);
    var item := ReuseRunEnds(p, p, env);
    GoneAfterFirstSync(p, env);
    NewSinceListing(p, env);
  }

  /** The row that is there in the end was not there all the time. */
  lemma NewSinceListing(p: string, env: Env)
    requires Paths.IsClean(p) && Smooth(env)
    ensures var f := NewRow("w", p, false, env.now).Row(1);
            GivenOutSince(OneFile(p), ReuseRun(p, env), 0, f.id) && !ThereSince(OneFile(p), ReuseRun(p, env), 0, f)
  {
    ReuseRunOrderly(p, p, env);
    GoneAfterFirstSync(p, env);
    PrefixAt(OneFile(p), Emptied(CopiedStart(), env), ReuseRun(p, env));
    var item := ReuseRunEnds(p, p, env);
    NotThereSince(OneFile(p), ReuseRun(p, env), |Emptied(CopiedStart(), env)|, NewRow("w", p, false, env.now).Row(1));
  }

  lemma GoneAfterFirstSync(p: string, env: Env)
    requires Paths.IsClean(p) && Smooth(env)
    ensures var gone := Play(OneFile(p), Emptied(CopiedStart(), env));
            gone.db.files == [] && gone.copies == Play(OneFile(p), ReuseRun(p, env)).copies
  {
    var item := ListedAndCopied(p);
    RefilledEnds(p, p, CopiedStart(), map[0 := Copying([item], 1)], [Copy(0, item)], env);
  }

  // ---------------------------------------------------------------- a run that goes right all the same

  /** List `p`; then the two syncs; only then copy. */
  ghost function LateRun(p: string, env: Env): seq<Event> {
    Refilled(ListedStart(), p, env) + [FlushCopy(0, true)]
  }

  lemma LateRunEnds(p: string, env: Env) returns (item: PendingFlush)
    requires Paths.IsClean(p) && Smooth(env)
    ensures item.fileId == 1 && KeyOfPending(item) == PathKey("w", p)
    ensures Play(OneFile(p), Emptied(ListedStart(), env)).db.files == []
    ensures CopiesNext(Play(OneFile(p), Refilled(ListedStart(), p, env)), 0, item)
    ensures var was, s, f := Play(OneFile(p), Refilled(ListedStart(), p, env)), Play(OneFile(p), LateRun(p, env)),
                             NewRow("w", p, false, env.now).Row(1);
            was.db.files == [f] && s.db.files == [f]
              && BecomesFlushed(s.db.files, Next(s, FlushMark(0, true)).db.files, f)
  {
    item := JustListed(p);
    var before := Refilled(ListedStart(), p, env);
    RefilledEnds(p, p, ListedStart(), map[0 := Copying([item], 0)], [], env);
    PlaySnoc(OneFile(p), before, FlushCopy(0, true));
    CopiesOne(Play(OneFile(p), before), item);
    MarkedAnyway(Play(OneFile(p), LateRun(p, env)), item, NewRow("w", p, false, env.now).Row(1));
  }

  lemma LateRunOrderly(p: string, env: Env)
    requires Paths.IsClean(p)
    ensures Initial(OneFile(p)) && AllOrderly(OneFile(p), LateRun(p, env))
    ensures Emptied(ListedStart(), env) <= LateRun(p, env)
  {
    StartsLocked();
    RefilledOrderly(p, p, ListedStart(), env);
    OneFileOrderly(p, LateRun(p, env));
  }

  /** A row of the last two states. */
  lemma ThereAtLast(s: State, es: seq<Event>, e: Event, f: File)
    requires f in Play(s, es).db.files && f in Play(s, es + [e]).db.files
    ensures ThereSince(s, es + [e], |es|, f)
  {
    PrefixAt(s, es, es + [e]);
    PrefixAt(s, es + [e], es + [e]);
  }

  /**
    With the copy last: the listed row is gone and its id was given out, and yet the mark is right, for the job
    copied the file of the very row it marks.
   */
  lemma ReusedIdMarksCopiedRow(p: string, env: Env) returns (item: PendingFlush)
    requires Paths.IsClean(p) && Smooth(env)
    ensures Initial(OneFile(p)) && AllOrderly(OneFile(p), LateRun(p, env))
    ensures var es, f := LateRun(p, env), NewRow("w", p, false, env.now).Row(1);
            && BecomesFlushed(Play(OneFile(p), es).db.files, Next(Play(OneFile(p), es), FlushMark(0, true)).db.files, f)
            && GivenOutSince(OneFile(p), es, 0, f.id) && CopiedAt(OneFile(p), es, 0, |es| - 1, item)
            && KeyOf(f) == KeyOfPending(item) && ThereSince(OneFile(p), es, |es| - 1, f)
  {
    var s, start, f := OneFile(p), ListedStart(), NewRow("w", p, false, env.now).Row(1);
    item := LateRunEnds(p, env);
    LateRunOrderly(p, env);
    PrefixAt(s, Emptied(start, env), LateRun(p, env));
    NotThereSince(s, LateRun(p, env), |Emptied(start, env)|, f);
    PrefixAt(s, Refilled(start, p, env), LateRun(p, env));
    ThereAtLast(s, Refilled(start, p, env), FlushCopy(0, true), f);
  }
}
