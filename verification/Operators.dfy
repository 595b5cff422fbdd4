/**
  What operators do in a run: creations, renames and deletions take effect, in the middle of syncs and flushes.
 */
module Operators {
  import opened Schema
  import opened Protocol
  import opened Statements
  import Integrity

  /** An operator's statements are those on machines, watchers and redirections; files are the jobs' business. */
  lemma OperatorStatements(st: Statement)
    ensures IsAdmin(st) <==>
            || st.InsertMachine? || st.UpdateMachine? || st.DeleteMachine?
            || st.InsertWatcher? || st.UpdateWatcher? || st.DeleteWatcher?
            || st.InsertRedirection? || st.UpdateRedirection? || st.DeleteRedirection?
  {
  }

  /** In the state after it the tables are those the statement leaves, and no job has noticed. */
  lemma AdminInRun(s: State, es: seq<Event>, st: Statement)
    requires !st.InsertFiles? && !st.DeleteFiles? && !st.MarkFiles?
    ensures Play(s, es + [Admin(st)]) == Play(s, es).(db := Exec(Play(s, es).db, st))
  {
    PlaySnoc(s, es, Admin(st));
  }

  /** No row of any table names this watcher. */
  ghost predicate NoTrace(t: Tables, name: string) {
    && (forall w :: w in t.watchers ==> w.name != name)
    && (forall f :: f in t.files ==> f.watcherName != name)
    && (forall r :: r in t.redirections ==> r.watcherName != name)
  }

  /** After the deletion of a watcher no row names it, and every other row of every table is the same. */
  lemma DeleteWatcherInRun(s: State, es: seq<Event>, name: string)
    requires Initial(s) && AllOrderly(s, es)
    ensures var t, t' := Play(s, es).db, Play(s, es + [Admin(DeleteWatcher(name))]).db;
            && NoTrace(t', name) && t'.machines == t.machines
            && (forall w :: w in t'.watchers <==> w in t.watchers && w.name != name)
            && (forall f :: f in t'.files <==> f in t.files && f.watcherName != name)
            && (forall r :: r in t'.redirections <==> r in t.redirections && r.watcherName != name)
  {
    InvAlways(s, es);
    AdminInRun(s, es, DeleteWatcher(name));
    DeleteWatcherRows(Play(s, es).db, name);
  }

  /**
    After the deletion of a machine its watchers leave no trace and every other row is the same, unless a redirection
    of a watcher elsewhere targets the machine: then nothing happens.
   */
  lemma DeleteMachineInRun(s: State, es: seq<Event>, name: string)
    requires Initial(s) && AllOrderly(s, es) && exists m :: m in Play(s, es).db.machines && m.name == name
    ensures MachineGone(Play(s, es).db, Play(s, es + [Admin(DeleteMachine(name))]).db, name)
  {
    InvAlways(s, es);
    AdminInRun(s, es, DeleteMachine(name));
    DeleteMachineRows(Play(s, es).db, name);
  }

  ghost predicate MachineGone(t: Tables, t': Tables, name: string) {
    if exists r :: r in t.redirections && r.targetMachine == name && !Integrity.LivesOn(t, r.watcherName, name)
    then t' == t
    else
      && (forall m :: m in t'.machines <==> m in t.machines && m.name != name)
      && (forall w :: w in t'.watchers <==> w in t.watchers && w.machineName != name)
      && (forall w :: w in t.watchers && w.machineName == name ==> NoTrace(t', w.name))
      && (forall f :: f in t.files && !Integrity.LivesOn(t, f.watcherName, name) ==> f in t'.files)
      && (forall r :: r in t.redirections && !Integrity.LivesOn(t, r.watcherName, name) ==> r in t'.redirections)
  }

  lemma DeleteMachineRows(t: Tables, name: string)
    requires Consistent(t) && exists m :: m in t.machines && m.name == name
    ensures MachineGone(t, Exec(t, DeleteMachine(name)), name)
  {
    var t' := Exec(t, DeleteMachine(name));
    Integrity.DeleteMachineClosure(t, name);
    if !(exists r :: r in t.redirections && r.targetMachine == name && !Integrity.LivesOn(t, r.watcherName, name)) {
      forall w | w in t.watchers && w.machineName == name ensures NoTrace(t', w.name) {
        NoTraceOf(t, t', name, w);
      }
    }
  }

  lemma NoTraceOf(t: Tables, t': Tables, name: string, w: Watcher)
    requires Distinct(t.watchers, WatcherName) && w in t.watchers && w.machineName == name
    requires forall v :: v in t'.watchers ==> v in t.watchers && v.machineName != name
    requires forall f :: f in t'.files ==> !Integrity.LivesOn(t, f.watcherName, name)
    requires forall r :: r in t'.redirections ==> !Integrity.LivesOn(t, r.watcherName, name)
    ensures NoTrace(t', w.name)
  {
    assert Integrity.LivesOn(t, w.name, name);
    forall v | v in t'.watchers ensures v.name != w.name {
      if v.name == w.name {
        Integrity.SameRow(t.watchers, WatcherName, v, w);
      }
    }
  }

  /** A rename to a new name, as the service asks for it. */
  function Rename(id: int, name: string, now: Time): Statement {
    Statement.UpdateWatcher([SetName(name)] + [SetWatcherUpdated(now)], id)
  }

  lemma RenamedRow(w: Watcher, name: string, now: Time)
    ensures AssignWatcher(w, [SetName(name)] + [SetWatcherUpdated(now)]) == w.(name := name, updatedAt := now)
  {
    var one := [SetName(name)];
    assert one[..0] == [] && (one + [SetWatcherUpdated(now)])[..1] == one;
    assert AssignWatcher(w, one) == SetWatcher(w, SetName(name));
  }

  /**
    A rename gives the watcher its new name and changes no other row, unless the new name is taken or files or a
    redirection refer to the old one: then nothing happens.
   */
  lemma RenameInRun(s: State, es: seq<Event>, k: nat, name: string, now: Time)
    requires Initial(s) && AllOrderly(s, es) && k < |Play(s, es).db.watchers| && name != Play(s, es).db.watchers[k].name
    ensures var t := Play(s, es).db;
            var w := t.watchers[k];
            var t' := Play(s, es + [Admin(Rename(w.id, name, now))]).db;
            if (exists v :: v in t.watchers && v.name == name) || (exists f :: f in t.files && f.watcherName == w.name)
               || (exists r :: r in t.redirections && r.watcherName == w.name)
            then t' == t
            else
              && t'.machines == t.machines && t'.files == t.files && t'.redirections == t.redirections
              && t'.watchers == t.watchers[k := Watcher(w.id, w.machineName, name, w.sourcePath, w.createdAt, now)]
  {
    var t := Play(s, es).db;
    InvAlways(s, es);
    AdminInRun(s, es, Rename(t.watchers[k].id, name, now));
    RenamedRow(t.watchers[k], name, now);
    Integrity.RenameRefusedIff(t, k, [SetName(name)] + [SetWatcherUpdated(now)]);
  }

  // ---------------------------------------------------------------- after a deletion

  /** The event makes, or may make, a watcher of this name. */
  predicate Makes(e: Event, name: string) {
    && e.Admin?
    && ((e.s.InsertWatcher? && e.s.name == name) || (e.s.UpdateWatcher? && SetName(name) in e.s.watcherSets))
  }

  lemma {:induction false} AssignedName(w: Watcher, sets: seq<WatcherSet>, name: string)
    requires w.name != name && SetName(name) !in sets
    ensures AssignWatcher(w, sets).name != name
  {
    if sets != [] {
      AssignedName(w, sets[..|sets| - 1], name);
      assert sets[|sets| - 1] in sets;
    }
  }

  lemma StatementMakesNone(t: Tables, st: Statement, name: string)
    requires (forall w :: w in t.watchers ==> w.name != name) && !Makes(Admin(st), name)
    ensures forall w :: w in Exec(t, st).watchers ==> w.name != name
  {
    if st.UpdateWatcher? && Allowed(t, st) {
      forall w | w in Effect(t, st).watchers ensures w.name != name {
        var i :| 0 <= i < |t.watchers| && Effect(t, st).watchers[i] == w;
        assert t.watchers[i] in t.watchers;
        AssignedName(t.watchers[i], st.watcherSets, name);
      }
    }
  }

  lemma OthersMakeNone(s: State, e: Event)
    requires !e.Admin?
    ensures Next(s, e).db.watchers == s.db.watchers
  {
  }

  lemma {:induction false} StaysAway(s: State, fs: seq<Event>, name: string)
    requires (forall w :: w in s.db.watchers ==> w.name != name) && forall i :: 0 <= i < |fs| ==> !Makes(fs[i], name)
    ensures forall w :: w in Play(s, fs).db.watchers ==> w.name != name
  {
    if fs != [] {
      var r, e := Play(s, fs[..|fs| - 1]), fs[|fs| - 1];
      StaysAway(s, fs[..|fs| - 1], name);
      if e.Admin? {
        StatementMakesNone(r.db, e.s, name);
      } else {
        OthersMakeNone(r, e);
      }
    }
  }

  /**
    Once a watcher is deleted no step of any job leaves a trace of it, whatever jobs had already listed or walked
    for it, until an operator makes a watcher of that name.
   */
  lemma DeletedStaysAway(s: State, es: seq<Event>, fs: seq<Event>, name: string)
    requires Initial(s) && AllOrderly(s, es + [Admin(DeleteWatcher(name))] + fs)
    requires forall i :: 0 <= i < |fs| ==> !Makes(fs[i], name)
    ensures NoTrace(Play(s, es + [Admin(DeleteWatcher(name))] + fs).db, name)
  {
    var run := es + [Admin(DeleteWatcher(name))];
    AdminInRun(s, es, DeleteWatcher(name));
    PlayConcat(s, run, fs);
    WatcherGone(Play(s, es).db, name);
    StaysAway(Play(s, run), fs, name);
    InvAlways(s, run + fs);
    NoWatcherNoTrace(Play(s, run + fs).db, name);
  }

  lemma WatcherGone(t: Tables, name: string)
    ensures forall w :: w in Exec(t, DeleteWatcher(name)).watchers ==> w.name != name
  {
  }

  lemma NoWatcherNoTrace(t: Tables, name: string)
    requires Consistent(t) && forall w :: w in t.watchers ==> w.name != name
    ensures NoTrace(t, name)
  {
  }
}
