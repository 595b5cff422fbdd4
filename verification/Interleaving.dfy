/**
  Syncs of different watchers do not interfere: any interleaving of their steps gives each watcher
  the rows it would have had running alone, up to row ids.
 */
module Interleaving {
  import opened Schema
  import opened Database
  import opened Sync
  import opened SyncLaws

  /** How far one job has come, with what it holds in memory. */
  datatype Progress = Waiting | Listed(untracked: set<string>, vanished: seq<string>) | Added(vanished: seq<string>)
    | Finished | Failed

  /** What one watcher's job is given: the walk it will make and what the world lets through. */
  datatype Plan = Plan(accepted: set<string>, flush: bool, env: Env)

  datatype System = System(files: seq<File>, progress: string -> Progress)

  /** The next step of the job of watcher `w`: list and walk, then add, then remove. */
  ghost function Step(plans: string -> Plan, s: System, w: string): System {
    var p := plans(w);
    match s.progress(w)
    case Waiting =>
      if !p.env.dialOk || !p.env.listOk then Move(s, s.files, w, Failed)
      else Move(s, s.files, w, Listed(Untracked(s.files, w, p.accepted), Vanished(s.files, w, p.accepted)))
    case Listed(untracked, vanished) =>
      if untracked != {} && !p.env.addOk then Move(s, s.files, w, Failed)
      else Move(s, s.files + FreshRows(s.files, w, p.env.order(untracked), p.flush, p.env.now), w, Added(vanished))
    case Added(vanished) =>
      if vanished != [] && !p.env.removeOk then Move(s, s.files, w, Failed)
      else Move(s, Reject(s.files, KeyOf, PathKeys(w, vanished)), w, Finished)
    case _ => s
  }

  ghost function Move(s: System, files: seq<File>, w: string, to: Progress): System {
    System(files, v => if v == w then to else s.progress(v))
  }

  /** Runs a schedule: whose turn it is, step by step. */
  ghost function RunAll(plans: string -> Plan, s: System, schedule: seq<string>): System {
    if schedule == [] then s
    else Step(plans, RunAll(plans, s, schedule[..|schedule| - 1]), schedule[|schedule| - 1])
  }

  /** The turns of one watcher. */
  ghost function Only(schedule: seq<string>, w: string): seq<string> {
    if schedule == [] then []
    else
      var rest := Only(schedule[..|schedule| - 1], w);
      if schedule[|schedule| - 1] == w then rest + [w] else rest
  }

  // ---------------------------------------------------------------- one watcher's view

  /** The rows of a watcher without their ids. */
  function Erased(files: seq<File>, w: string): seq<NewFile> {
    if files == [] then []
    else
      var rest, f := Erased(files[..|files| - 1], w), files[|files| - 1];
      if f.watcherName == w then rest + [NewFile(w, f.filePath, f.fileName, f.flushed, f.detectedAt)] else rest
  }

  ghost predicate SameView(s: System, r: System, w: string) {
    Erased(s.files, w) == Erased(r.files, w) && s.progress(w) == r.progress(w)
  }

  function PathOf(n: NewFile): string {
    Schema.FullPath(n.Row(0))
  }

  ghost function PathsOf(ns: seq<NewFile>): set<string> {
    if ns == [] then {} else PathsOf(ns[..|ns| - 1]) + {PathOf(ns[|ns| - 1])}
  }

  ghost function StaleOf(ns: seq<NewFile>, accepted: set<string>): seq<string> {
    if ns == [] then []
    else
      var front, last := StaleOf(ns[..|ns| - 1], accepted), PathOf(ns[|ns| - 1]);
      if last in accepted then front else front + [last]
  }

  ghost function Keep(ns: seq<NewFile>, dead: set<FileKey>): seq<NewFile> {
    if ns == [] then []
    else
      var front, last := Keep(ns[..|ns| - 1], dead), ns[|ns| - 1];
      if KeyOf(last.Row(0)) in dead then front else front + [last]
  }

  // ---------------------------------------------------------------- steps in the view

  lemma {:induction false} SelectSnoc<T(!new), K>(s: seq<T>, x: T, key: T -> K, wanted: set<K>)
    ensures Select(s + [x], key, wanted) == Select(s, key, wanted) + if key(x) in wanted then [x] else []
  {
    SelectConcat(s, [x], key, wanted);
    assert [x][1..] == [];
  }

  lemma ErasedSnoc(front: seq<File>, f: File, w: string)
    ensures Erased(front + [f], w) ==
            Erased(front, w) +
            if f.watcherName == w then [NewFile(w, f.filePath, f.fileName, f.flushed, f.detectedAt)] else []
  {
  }

  /** What a job reads of the table depends on its own rows only: the tracked paths, */
  lemma {:induction false} TracksOwnRows(files: seq<File>, w: string)
    ensures TrackedPaths(files, w) == PathsOf(Erased(files, w))
  {
    if files != [] {
      var front, f := files[..|files| - 1], files[|files| - 1];
      TracksOwnRows(front, w);
      assert files == front + [f];
      ErasedSnoc(front, f, w);
      if f.watcherName == w {
        var n := NewFile(w, f.filePath, f.fileName, f.flushed, f.detectedAt);
        assert (Erased(front, w) + [n])[..|Erased(front, w)|] == Erased(front, w);
        assert PathOf(n) == FullPath(f);
      }
    }
  }

  /** and the paths that have vanished. */
  lemma {:induction false} VanishOwnRows(files: seq<File>, w: string, accepted: set<string>)
    ensures Vanished(files, w, accepted) == StaleOf(Erased(files, w), accepted)
  {
    if files != [] {
      var front, f := files[..|files| - 1], files[|files| - 1];
      VanishOwnRows(front, w, accepted);
      assert files == front + [f];
      SelectSnoc(front, f, FileWatcher, {w});
      ErasedSnoc(front, f, w);
      var rows, erased := Select(front, FileWatcher, {w}), Erased(front, w);
      if f.watcherName == w {
        var n := NewFile(w, f.filePath, f.fileName, f.flushed, f.detectedAt);
        assert (rows + [f])[..|rows|] == rows && (erased + [n])[..|erased|] == erased;
        assert PathOf(n) == FullPath(f);
      } else {
        assert rows + [] == rows && erased + [] == erased;
      }
    }
  }

  lemma {:induction false} ErasedConcat(a: seq<File>, b: seq<File>, w: string)
    ensures Erased(a + b, w) == Erased(a, w) + Erased(b, w)
  {
    if b == [] {
      assert a + b == a;
    } else {
      assert (a + b)[..|a + b| - 1] == a + b[..|b| - 1];
      ErasedConcat(a, b[..|b| - 1], w);
    }
  }

  lemma {:induction false} ErasedOwn(rows: seq<File>, news: seq<NewFile>, w: string)
    requires |rows| == |news| && forall i :: 0 <= i < |rows| ==>
      news[i].watcherName == w && rows[i] == news[i].Row(rows[i].id)
    ensures Erased(rows, w) == news
    ensures forall v :: v != w ==> Erased(rows, v) == []
  {
    if rows != [] {
      ErasedOwn(rows[..|rows| - 1], news[..|rows| - 1], w);
    }
  }

  /** Adding rows for `w` adds them to the view of `w` and of nobody else. */
  lemma AddInView(files: seq<File>, w: string, order: seq<string>, flush: bool, now: Time, v: string)
    ensures Erased(files + FreshRows(files, w, order, flush, now), v) ==
            Erased(files, v) + if v == w then NewRows(w, order, flush, now) else []
  {
    var rows := FreshRows(files, w, order, flush, now);
    ErasedConcat(files, rows, v);
    ErasedOwn(rows, NewRows(w, order, flush, now), w);
  }

  lemma {:induction false} RejectSnoc(s: seq<File>, f: File, dead: set<FileKey>)
    ensures Reject(s + [f], KeyOf, dead) == Reject(s, KeyOf, dead) + if KeyOf(f) in dead then [] else [f]
  {
    RejectConcat(s, [f], KeyOf, dead);
    assert [f][1..] == [];
  }

  lemma {:induction false} RemoveInView(files: seq<File>, dead: set<FileKey>, v: string)
    ensures Erased(Reject(files, KeyOf, dead), v) == Keep(Erased(files, v), dead)
  {
    if files != [] {
      var front, f := files[..|files| - 1], files[|files| - 1];
      RemoveInView(front, dead, v);
      assert files == front + [f];
      RejectSnoc(front, f, dead);
      ErasedConcat(Reject(front, KeyOf, dead), if KeyOf(f) in dead then [] else [f], v);
      assert Erased([f], v) ==
        if f.watcherName == v then [NewFile(v, f.filePath, f.fileName, f.flushed, f.detectedAt)] else [];
    }
  }

  lemma {:induction false} KeepAll(ns: seq<NewFile>, dead: set<FileKey>)
    requires forall i :: 0 <= i < |ns| ==> KeyOf(ns[i].Row(0)) !in dead
    ensures Keep(ns, dead) == ns
  {
    if ns != [] {
      KeepAll(ns[..|ns| - 1], dead);
    }
  }

  lemma {:induction false} ErasedNames(files: seq<File>, v: string)
    ensures forall i :: 0 <= i < |Erased(files, v)| ==> Erased(files, v)[i].watcherName == v
  {
    if files != [] {
      ErasedNames(files[..|files| - 1], v);
    }
  }

  /** A step of another job does not show. */
  lemma OtherStep(plans: string -> Plan, s: System, w: string, v: string)
    requires v != w
    ensures SameView(Step(plans, s, w), s, v)
  {
    var p := plans(w);
    match s.progress(w)
    case Listed(untracked, vanished) =>
      AddInView(s.files, w, p.env.order(untracked), p.flush, p.env.now, v);
    case Added(vanished) =>
      RemoveInView(s.files, PathKeys(w, vanished), v);
      ErasedNames(s.files, v);
      KeepAll(Erased(s.files, v), PathKeys(w, vanished));
    case _ =>
  }

  /** A job's own step does the same in every system that looks the same to it. */
  lemma OwnStep(plans: string -> Plan, s: System, r: System, w: string)
    requires SameView(s, r, w)
    ensures SameView(Step(plans, s, w), Step(plans, r, w), w)
  {
    var p := plans(w);
    match s.progress(w)
    case Waiting =>
      TracksOwnRows(s.files, w);
      TracksOwnRows(r.files, w);
      VanishOwnRows(s.files, w, p.accepted);
      VanishOwnRows(r.files, w, p.accepted);
    case Listed(untracked, vanished) =>
      AddInView(s.files, w, p.env.order(untracked), p.flush, p.env.now, w);
      AddInView(r.files, w, p.env.order(untracked), p.flush, p.env.now, w);
    case Added(vanished) =>
      RemoveInView(s.files, PathKeys(w, vanished), w);
      RemoveInView(r.files, PathKeys(w, vanished), w);
    case _ =>
  }

  // ---------------------------------------------------------------- main result

  /** After any schedule, a watcher's rows and job are as if only its own turns had been taken. */
  lemma {:induction false} RunsAlone(plans: string -> Plan, s: System, schedule: seq<string>, v: string)
    ensures SameView(RunAll(plans, s, schedule), RunAll(plans, s, Only(schedule, v)), v)
  {
    if schedule != [] {
      var front, w := schedule[..|schedule| - 1], schedule[|schedule| - 1];
      RunsAlone(plans, s, front, v);
      if w == v {
        assert Only(schedule, v)[..|Only(schedule, v)| - 1] == Only(front, v);
        OwnStep(plans, RunAll(plans, s, front), RunAll(plans, s, Only(front, v)), v);
      } else {
        OtherStep(plans, RunAll(plans, s, front), w, v);
      }
    }
  }

  lemma {:induction false} OnlyRepeats(schedule: seq<string>, w: string)
    ensures forall i :: 0 <= i < |Only(schedule, w)| ==> Only(schedule, w)[i] == w
  {
    if schedule != [] {
      OnlyRepeats(schedule[..|schedule| - 1], w);
    }
  }

  /**
    Two schedules that give each job the same number of turns end with the same rows for every
    watcher, ids aside. Running the jobs one after the other, in any order, is one such schedule.
   */
  lemma SchedulesAgree(plans: string -> Plan, s: System, one: seq<string>, two: seq<string>, v: string)
    requires |Only(one, v)| == |Only(two, v)|
    ensures SameView(RunAll(plans, s, one), RunAll(plans, s, two), v)
  {
    OnlyRepeats(one, v);
    OnlyRepeats(two, v);
    assert Only(one, v) == Only(two, v);
    RunsAlone(plans, s, one, v);
    RunsAlone(plans, s, two, v);
  }

  lemma OneMoreTurn(plans: string -> Plan, s: System, schedule: seq<string>, w: string)
    ensures RunAll(plans, s, schedule + [w]) == Step(plans, RunAll(plans, s, schedule), w)
  {
  }

  lemma ThreeTurns(plans: string -> Plan, s: System, w: string)
    ensures RunAll(plans, s, [w, w, w]) == Step(plans, Step(plans, Step(plans, s, w), w), w)
  {
    OneMoreTurn(plans, s, [], w);
    OneMoreTurn(plans, s, [w], w);
    OneMoreTurn(plans, s, [w, w], w);
    assert [] + [w] == [w] && [w] + [w] == [w, w] && [w, w] + [w] == [w, w, w];
  }

  /** The two writing steps are the two writes of SaveOutcome. */
  lemma WritesAreSave(plans: string -> Plan, s: System, w: string, t: Tables, added: set<string>, removed: seq<string>)
    requires t.files == s.files && Orders(plans(w).env.order) && Has(t.watchers, WatcherName, w)
    requires s.progress(w) == Listed(added, removed)
    ensures var p := plans(w);
            var (t', ok) := SaveOutcome(t, w, added, removed, p.flush, p.env);
            var end := Step(plans, Step(plans, s, w), w);
            end.files == t'.files && (end.progress(w) == Finished <==> ok)
  {
    var p := plans(w);
    if added == {} || p.env.addOk {
      var s1 := Step(plans, s, w);
      var t1 := t.(files := s1.files);
      AddShape(t, w, added, p.flush, p.env);
      RemoveIsStep(plans, s1, w, t1, removed);
    }
  }

  lemma RemoveIsStep(plans: string -> Plan, s: System, w: string, t: Tables, removed: seq<string>)
    requires s.progress(w) == Added(removed) && t.files == s.files
    ensures var end := Step(plans, s, w);
            if removed == [] || plans(w).env.removeOk
            then end.progress(w) == Finished
              && end.files == (if removed == [] then t else AfterRemove(t, w, removed)).files
            else end.progress(w) == Failed && end.files == t.files
  {
    RemoveShape(t, w, removed);
  }

  /** The three steps of one job, run without interruption, are the sync job. */
  lemma StepsAreSync(plans: string -> Plan, s: System, w: string, t: Tables)
    requires s.progress(w) == Waiting && t.files == s.files && Orders(plans(w).env.order)
      && Has(t.watchers, WatcherName, w)
    ensures var p := plans(w);
            var (t', r) := SyncOutcome(t, w, p.accepted, p.flush, p.env);
            var end := RunAll(plans, s, [w, w, w]);
            end.files == t'.files && (end.progress(w) == Finished <==> r.Ok?)
  {
    var p := plans(w);
    ThreeTurns(plans, s, w);
    if p.env.dialOk && p.env.listOk {
      WritesAreSave(plans, Step(plans, s, w), w, t, Untracked(t.files, w, p.accepted),
                    Vanished(t.files, w, p.accepted));
    }
  }
}
