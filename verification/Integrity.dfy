/**
  Referential integrity over every sequence of statements, and exactly what a cascade removes.
 */
module Integrity {
  import opened Schema

  lemma DistinctAppend<T, K>(s: seq<T>, x: T, key: T -> K)
    ensures Distinct(s + [x], key) <==> Distinct(s, key) && forall i :: 0 <= i < |s| ==> key(s[i]) != key(x)
  {
    var all := s + [x];
    if Distinct(all, key) {
      forall i, j | 0 <= i < j < |s| ensures key(s[i]) != key(s[j]) {
        assert all[i] == s[i] && all[j] == s[j];
      }
      forall i | 0 <= i < |s| ensures key(s[i]) != key(x) {
        assert all[i] == s[i] && all[|s|] == x;
      }
    }
  }

  /** The local check for a duplicate key is the global one. */
  lemma AppendKey<T(!new), K>(s: seq<T>, x: T, key: T -> K)
    requires Distinct(s, key)
    ensures Distinct(s + [x], key) <==> !Has(s, key, key(x))
  {
    DistinctAppend(s, x, key);
  }

  lemma AppendId<T(!new)>(s: seq<T>, x: T, id: T -> int)
    requires Distinct(s, id) && id(x) == MaxId(s, id) + 1
    ensures Distinct(s + [x], id)
  {
  }

  lemma HasAppend<T(!new), K>(s: seq<T>, x: T, key: T -> K, k: K)
    ensures Has(s + [x], key, k) <==> Has(s, key, k) || key(x) == k
  {
  }

  lemma HasReject<T(!new), K>(s: seq<T>, key: T -> K, dead: set<K>, k: K)
    ensures Has(Reject(s, key, dead), key, k) <==> Has(s, key, k) && k !in dead
  {
  }

  /** Two rows of a table with the same unique key are the same row. */
  lemma SameRow<T(!new), K>(s: seq<T>, key: T -> K, x: T, y: T)
    requires Distinct(s, key) && x in s && y in s && key(x) == key(y)
    ensures x == y
  {
  }

  /** A row-by-row rewrite that leaves a column alone leaves its uniqueness and its values alone. */
  lemma RewriteKeeps<T(!new), K>(s: seq<T>, r: seq<T>, key: T -> K)
    requires |r| == |s| && forall i :: 0 <= i < |s| ==> key(r[i]) == key(s[i])
    ensures Distinct(r, key) <==> Distinct(s, key)
    ensures forall k :: Has(r, key, k) <==> Has(s, key, k)
  {
  }

  // ---------------------------------------------------------------- one statement at a time

  lemma InsertMachineExact(t: Tables, s: Statement)
    requires Consistent(t) && s.InsertMachine?
    ensures Allowed(t, s) <==> Consistent(Effect(t, s))
  {
    var m := Machine(MaxId(t.machines, MachineId) + 1, s.name, s.ip, s.sshPort, s.sshUser, s.keyPath, s.now, s.now);
    AppendId(t.machines, m, MachineId);
    AppendKey(t.machines, m, MachineName);
    forall k ensures Has(t.machines, MachineName, k) ==> Has(Effect(t, s).machines, MachineName, k) {
      HasAppend(t.machines, m, MachineName, k);
    }
  }

  lemma InsertWatcherExact(t: Tables, s: Statement)
    requires Consistent(t) && s.InsertWatcher?
    ensures Allowed(t, s) <==> Consistent(Effect(t, s))
  {
    var w := Watcher(MaxId(t.watchers, WatcherId) + 1, s.machineName, s.name, s.sourcePath, s.now, s.now);
    AppendId(t.watchers, w, WatcherId);
    AppendKey(t.watchers, w, WatcherName);
    assert w in Effect(t, s).watchers;
    forall k ensures Has(t.watchers, WatcherName, k) ==> Has(Effect(t, s).watchers, WatcherName, k) {
      HasAppend(t.watchers, w, WatcherName, k);
    }
  }

  lemma InsertRedirectionExact(t: Tables, s: Statement)
    requires Consistent(t) && s.InsertRedirection?
    ensures Allowed(t, s) <==> Consistent(Effect(t, s))
  {
    var r := Redirection(s.watcherName, s.targetPath, s.targetMachine, s.now, s.now);
    AppendKey(t.redirections, r, RedirectionWatcher);
    assert r in Effect(t, s).redirections;
  }

  lemma UpdateMachineExact(t: Tables, s: Statement)
    requires Consistent(t) && s.UpdateMachine?
    ensures Consistent(Effect(t, s))
  {
    RewriteKeeps(t.machines, Effect(t, s).machines, MachineId);
    RewriteKeeps(t.machines, Effect(t, s).machines, MachineName);
  }

  lemma UpdateRedirectionExact(t: Tables, s: Statement)
    requires Consistent(t) && s.UpdateRedirection?
    ensures Consistent(Effect(t, s))
  {
    RewriteKeeps(t.redirections, Effect(t, s).redirections, RedirectionWatcher);
    forall r | r in Effect(t, s).redirections
      ensures Has(t.watchers, WatcherName, r.watcherName) && Has(t.machines, MachineName, r.targetMachine)
    {
      var i :| 0 <= i < |t.redirections| && Effect(t, s).redirections[i] == r;
      assert t.redirections[i] in t.redirections;
    }
  }

  lemma MarkExact(t: Tables, s: Statement)
    requires Consistent(t) && s.MarkFiles?
    ensures Consistent(Effect(t, s))
  {
    RewriteKeeps(t.files, Effect(t, s).files, FileId);
    forall f | f in Effect(t, s).files ensures Has(t.watchers, WatcherName, f.watcherName) {
      var i :| 0 <= i < |t.files| && Effect(t, s).files[i] == f;
      assert t.files[i] in t.files;
    }
  }

  /** Consecutive ids above the largest one cannot clash. */
  lemma NumberedDistinct(files: seq<File>, rows: seq<NewFile>)
    requires Distinct(files, FileId)
    ensures Distinct(files + NumberRows(rows, MaxId(files, FileId) + 1), FileId)
  {
  }

  lemma InsertFilesExact(t: Tables, s: Statement)
    requires Consistent(t) && s.InsertFiles?
    ensures Allowed(t, s) <==> Consistent(Effect(t, s))
  {
  }

  lemma DeleteFilesExact(t: Tables, s: Statement)
    requires Consistent(t) && (s.DeleteFiles? || s.DeleteRedirection?)
    ensures Consistent(Effect(t, s))
  {
    if s.DeleteFiles? {
      RejectDistinct(t.files, KeyOf, s.keys, FileId);
    } else {
      RejectDistinct(t.redirections, RedirectionWatcher, {s.watcherName}, RedirectionWatcher);
    }
  }

  /** Cascading a set of watchers keeps everything below them consistent. */
  lemma CascadeWatchers(t: Tables, gone: set<string>)
    requires Consistent(t)
    ensures Consistent(Tables(t.machines, Reject(t.watchers, WatcherName, gone),
                              Reject(t.files, FileWatcher, gone), Reject(t.redirections, RedirectionWatcher, gone)))
  {
    RejectDistinct(t.watchers, WatcherName, gone, WatcherId);
    RejectDistinct(t.watchers, WatcherName, gone, WatcherName);
    RejectDistinct(t.files, FileWatcher, gone, FileId);
    RejectDistinct(t.redirections, RedirectionWatcher, gone, RedirectionWatcher);
    forall k
      ensures Has(Reject(t.watchers, WatcherName, gone), WatcherName, k) <==>
              Has(t.watchers, WatcherName, k) && k !in gone
    {
      HasReject(t.watchers, WatcherName, gone, k);
    }
  }

  /** Dropping the machine row itself breaks nothing but references to it. */
  lemma DropMachine(t: Tables, name: string)
    requires Consistent(t)
    ensures var e := t.(machines := Reject(t.machines, MachineName, {name}));
            Consistent(e) <==>
              && (forall w :: w in t.watchers ==> w.machineName != name)
              && (forall r :: r in t.redirections ==> r.targetMachine != name)
  {
    RejectDistinct(t.machines, MachineName, {name}, MachineId);
    RejectDistinct(t.machines, MachineName, {name}, MachineName);
    forall k
      ensures Has(Reject(t.machines, MachineName, {name}), MachineName, k) <==>
              Has(t.machines, MachineName, k) && k != name
    {
      HasReject(t.machines, MachineName, {name}, k);
    }
  }

  lemma DeleteMachineExact(t: Tables, s: Statement)
    requires Consistent(t) && s.DeleteMachine?
    ensures Allowed(t, s) <==> Consistent(Effect(t, s))
  {
    var gone := if Has(t.machines, MachineName, s.name) then WatchersOn(t, s.name) else {};
    var cascaded := Tables(t.machines, Reject(t.watchers, WatcherName, gone), Reject(t.files, FileWatcher, gone),
                           Reject(t.redirections, RedirectionWatcher, gone));
    CascadeWatchers(t, gone);
    DropMachine(cascaded, s.name);
    assert Effect(t, s) == cascaded.(machines := Reject(t.machines, MachineName, {s.name}));
    assert forall w :: w in cascaded.watchers ==> w.machineName != s.name;
  }

  lemma RenameExact(t: Tables, s: Statement)
    requires Consistent(t) && s.UpdateWatcher?
    ensures Allowed(t, s) <==> Consistent(Effect(t, s))
  {
    var e := Effect(t, s);
    RewriteKeeps(t.watchers, e.watchers, WatcherId);
    forall w | w in e.watchers ensures Has(t.machines, MachineName, w.machineName) {
      var i :| 0 <= i < |t.watchers| && e.watchers[i] == w;
      assert t.watchers[i] in t.watchers;
    }
    if k :| 0 <= k < |t.watchers| && t.watchers[k].id == s.id {
      RenameRow(t, s, k);
    } else {
      assert e.watchers == t.watchers;
    }
  }

  /** Renaming row k: every other row keeps its name. */
  lemma RenameRow(t: Tables, s: Statement, k: nat)
    requires Consistent(t) && s.UpdateWatcher? && k < |t.watchers| && t.watchers[k].id == s.id
    requires Distinct(Effect(t, s).watchers, WatcherId)
    requires forall w :: w in Effect(t, s).watchers ==> Has(t.machines, MachineName, w.machineName)
    ensures Allowed(t, s) <==> Consistent(Effect(t, s))
  {
    var e := Effect(t, s);
    var oldName, newName := t.watchers[k].name, AssignWatcher(t.watchers[k], s.watcherSets).name;
    assert forall i :: 0 <= i < |t.watchers| && i != k ==> e.watchers[i] == t.watchers[i];
    assert e.watchers[k].name == newName;
    assert forall w :: w in t.watchers && w.id == s.id ==> w == t.watchers[k];
    if oldName == newName {
      RewriteKeeps(t.watchers, e.watchers, WatcherName);
    } else {
      RenamedNames(t.watchers, e.watchers, k);
      if Allowed(t, s) {
        assert !Has(t.watchers, WatcherName, newName);
      } else if Has(t.watchers, WatcherName, newName) {
        var j :| 0 <= j < |t.watchers| && t.watchers[j].name == newName;
        assert WatcherName(e.watchers[j]) == WatcherName(e.watchers[k]);
        assert j < k || k < j;
        assert !Distinct(e.watchers, WatcherName);
      }
    }
  }

  lemma RenamedNames(ws: seq<Watcher>, es: seq<Watcher>, k: nat)
    requires Distinct(ws, WatcherName) && k < |ws| && |es| == |ws| && es[k].name != ws[k].name
    requires forall i :: 0 <= i < |ws| && i != k ==> es[i] == ws[i]
    ensures !Has(es, WatcherName, ws[k].name)
    ensures !Has(ws, WatcherName, es[k].name) ==> Distinct(es, WatcherName)
    ensures forall n :: Has(ws, WatcherName, n) && n != ws[k].name ==> Has(es, WatcherName, n)
  {
  }

  // ---------------------------------------------------------------- main results

  /**
    The local checks are exact: a statement goes through if and only if its full effect, cascades
    included, leaves every key unique and every reference with its parent.
   */
  lemma ExecExact(t: Tables, s: Statement)
    requires Consistent(t)
    ensures Allowed(t, s) <==> Consistent(Effect(t, s))
  {
    match s
    case InsertMachine(_, _, _, _, _, _) => InsertMachineExact(t, s);
    case UpdateMachine(_, _) => UpdateMachineExact(t, s);
    case DeleteMachine(_) => DeleteMachineExact(t, s);
    case InsertWatcher(_, _, _, _) => InsertWatcherExact(t, s);
    case UpdateWatcher(_, _) => RenameExact(t, s);
    case DeleteWatcher(name) => CascadeWatchers(t, if Has(t.watchers, WatcherName, name) then {name} else {});
    case InsertRedirection(_, _, _, _) => InsertRedirectionExact(t, s);
    case UpdateRedirection(_, _) => UpdateRedirectionExact(t, s);
    case DeleteRedirection(_) => DeleteFilesExact(t, s);
    case InsertFiles(_) => InsertFilesExact(t, s);
    case DeleteFiles(_) => DeleteFilesExact(t, s);
    case MarkFiles(_) => MarkExact(t, s);
  }

  /** Every sequence of statements, allowed or refused, keeps the database consistent. */
  lemma {:induction false} AlwaysConsistent(t: Tables, ss: seq<Statement>)
    requires Consistent(t)
    ensures Consistent(ExecAll(t, ss))
    decreases |ss|
  {
    if ss != [] {
      ExecExact(t, ss[0]);
      AlwaysConsistent(Exec(t, ss[0]), ss[1..]);
    }
  }

  /** The watcher a row belongs to lives on this machine. */
  ghost predicate LivesOn(t: Tables, watcher: string, machine: string) {
    exists w :: w in t.watchers && w.name == watcher && w.machineName == machine
  }

  /**
    Deleting a machine removes precisely its watchers, their files and their redirections, and is
    refused exactly when a redirection that would survive still targets it.
   */
  lemma DeleteMachineClosure(t: Tables, name: string)
    requires Consistent(t) && Has(t.machines, MachineName, name)
    ensures var e := Exec(t, DeleteMachine(name));
            var refused := exists r ::
              r in t.redirections && r.targetMachine == name && !LivesOn(t, r.watcherName, name);
            if refused then e == t
            else
              && (forall m :: m in e.machines <==> m in t.machines && m.name != name)
              && (forall w :: w in e.watchers <==> w in t.watchers && w.machineName != name)
              && (forall f :: f in e.files <==> f in t.files && !LivesOn(t, f.watcherName, name))
              && (forall r :: r in e.redirections <==> r in t.redirections && !LivesOn(t, r.watcherName, name))
  {
    forall k ensures k in WatchersOn(t, name) <==> LivesOn(t, k, name) {}
    forall w | w in t.watchers ensures w.name in WatchersOn(t, name) <==> w.machineName == name {
      if v :| v in t.watchers && v.machineName == name && v.name == w.name {
        SameRow(t.watchers, WatcherName, v, w);
      }
    }
  }

  /**
    A rename is refused exactly while the old name is still referred to by a file or a redirection, or
    the new name is taken; one that goes through touches no other row of any table.
   */
  lemma RenameRefusedIff(t: Tables, k: nat, sets: seq<WatcherSet>)
    requires Consistent(t) && k < |t.watchers| && AssignWatcher(t.watchers[k], sets).name != t.watchers[k].name
    ensures var w, e := t.watchers[k], Exec(t, UpdateWatcher(sets, t.watchers[k].id));
            && (e == t <==> Referenced(t, w.name) || Has(t.watchers, WatcherName, AssignWatcher(w, sets).name))
            && (e != t ==> e == t.(watchers := t.watchers[k := AssignWatcher(w, sets)]))
  {
    var w, s := t.watchers[k], UpdateWatcher(sets, t.watchers[k].id);
    forall v | v in t.watchers && v.id == w.id ensures v == w {
      SameRow(t.watchers, WatcherId, v, w);
    }
    forall i | 0 <= i < |t.watchers|
      ensures Effect(t, s).watchers[i] == if i == k then AssignWatcher(w, sets) else t.watchers[i]
    {
      assert i != k ==> WatcherId(t.watchers[i]) != WatcherId(t.watchers[k]);
    }
    assert Effect(t, s).watchers == t.watchers[k := AssignWatcher(w, sets)];
    assert Effect(t, s).watchers[k] != t.watchers[k];
  }
}
