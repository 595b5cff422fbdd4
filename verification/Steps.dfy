/**
  The single steps of the protocol that the runs of whole jobs do not show: refusals, failures, and what has ended.
 */
module Steps {
  import opened Schema
  import opened Sync
  import opened SyncLaws
  import opened Protocol
  import opened ProtocolLaws
  import GoSet
  import Paths

  // ---------------------------------------------------------------- starting a call

  /** The watcher exists and so does its machine. */
  ghost predicate Exists(t: Tables, name: string) {
    exists w, m :: w in t.watchers && w.name == name && m in t.machines && m.name == w.machineName
  }

  /**
    A new call takes the lock if and only if the name is not empty, the watcher and its machine exist, and nobody holds
    the name. Otherwise it is over, and nothing else has changed.
   */
  lemma StartsIff(s: State, es: seq<Event>, c: int, name: string)
    requires c !in Play(s, es).calls && c !in Play(s, es).free
    ensures var r, r' := Play(s, es), Play(s, es + [Begin(c, name)] + [Acquire(c)]);
            && r'.db == r.db && r'.flushes == r.flushes && r'.copies == r.copies && r'.free == r.free
            && if name != "" && Exists(r.db, name) && name !in r.held
               then Holds(r', c, name) && r'.held == r.held + {name} && r'.calls == r.calls[c := r'.calls[c]]
               else r'.held == r.held && r'.calls == r.calls[c := Closed]
  {
    var r := Play(s, es);
    PlaySnoc(s, es, Begin(c, name));
    PlaySnoc(s, es + [Begin(c, name)], Acquire(c));
    KnownIff(r.db, name);
    if name != "" && Exists(r.db, name) && name !in r.held {
      Entered(r, c, name);
    } else {
      Rejected(r, c, name);
    }
  }

  lemma KnownIff(t: Tables, name: string)
    ensures Known(t, name) <==> name != "" && Exists(t, name)
  {
    if Exists(t, name) {
      var w, m :| w in t.watchers && w.name == name && m in t.machines && m.name == w.machineName;
      assert Has(t.machines, MachineName, w.machineName);
    }
    if Known(t, name) {
      var w :| w in t.watchers && w.name == name && Has(t.machines, MachineName, w.machineName);
      var m :| m in t.machines && m.name == w.machineName;
    }
  }

  lemma Rejected(s: State, c: int, name: string)
    requires c !in s.calls && (!Known(s.db, name) || name in s.held)
    ensures Next(Next(s, Begin(c, name)), Acquire(c)) == SetCall(s, c, Closed)
  {
    assert s.calls[c := Looked(name)][c := Closed] == s.calls[c := Closed];
  }

  // ---------------------------------------------------------------- what is over

  /** An event of this call, after its beginning. */
  predicate OfCall(e: Event, c: int) {
    (e.Acquire? || e.List? || e.Walk? || e.Add? || e.Remove? || e.Release?) && e.call == c
  }

  /** A call that is over does nothing any more. */
  lemma ClosedIdle(s: State, c: int, e: Event)
    requires c in s.calls && s.calls[c] == Closed && OfCall(e, c)
    ensures Next(s, e) == s
  {
  }

  /** An event of this flush job, after its listing. */
  predicate OfFlush(e: Event, j: int) {
    (e.FlushCopy? || e.FlushMark?) && e.job == j
  }

  lemma OverIdle(s: State, j: int, e: Event)
    requires j in s.flushes && s.flushes[j] == FlushOver && OfFlush(e, j)
    ensures Next(s, e) == s
  {
  }

  lemma OverKept(s: State, j: int, e: Event)
    requires j in s.flushes && s.flushes[j] == FlushOver
    ensures j in Next(s, e).flushes && Next(s, e).flushes[j] == FlushOver
  {
  }

  lemma {:induction false} OverStays(s: State, es: seq<Event>, j: int)
    requires j in s.flushes && s.flushes[j] == FlushOver
    ensures j in Play(s, es).flushes && Play(s, es).flushes[j] == FlushOver
  {
    if es != [] {
      OverStays(s, es[..|es| - 1], j);
      OverKept(Play(s, es[..|es| - 1]), j, es[|es| - 1]);
    }
  }

  // ---------------------------------------------------------------- flushes that fail

  /** A failed listing, copy or mark ends the job and changes nothing else. */
  lemma FlushFails(s: State, j: int, name: string)
    ensures j !in s.flushes ==> Next(s, FlushList(j, name, false)) == SetFlush(s, j, FlushOver)
    ensures j in s.flushes && s.flushes[j].Copying? && s.flushes[j].copied < |s.flushes[j].pending| ==>
              Next(s, FlushCopy(j, false)) == SetFlush(s, j, FlushOver)
    ensures j in s.flushes && s.flushes[j].Copying? && s.flushes[j].copied == |s.flushes[j].pending| ==>
              Next(s, FlushMark(j, false)) == SetFlush(s, j, FlushOver)
  {
  }

  /** After a failed copy no later event of the job changes any table or is recorded as a copy. */
  lemma FailedFlushNeverMarks(s: State, es: seq<Event>, j: int, fs: seq<Event>, e: Event)
    requires var r := Play(s, es);
             j in r.flushes && r.flushes[j].Copying? && r.flushes[j].copied < |r.flushes[j].pending|
    requires OfFlush(e, j)
    ensures var run := es + [FlushCopy(j, false)] + fs; Play(s, run + [e]) == Play(s, run)
  {
    var run := es + [FlushCopy(j, false)] + fs;
    FlushFails(Play(s, es), j, "");
    PlaySnoc(s, es, FlushCopy(j, false));
    PlayConcat(s, es + [FlushCopy(j, false)], fs);
    OverStays(Play(s, es + [FlushCopy(j, false)]), fs, j);
    PlaySnoc(s, run, e);
    OverIdle(Play(s, run), j, e);
  }

  // ---------------------------------------------------------------- the job without the lock

  /** Its steps with nothing in between. */
  ghost function SoloFree(s: State, c: int, name: string, accepted: set<string>, order: seq<string>, env: Env): State {
    var s1 := Next(s, Enter(c, name));
    var s2 := Next(Next(s1, List(c, env.dialOk && env.listOk)), Walk(c, accepted, order));
    Next(Writes(s2, c, env), Release(c))
  }

  /** They are the sync job that records its rows as flushed already, whether or not the name is held. */
  lemma SoloFreeIsSync(s: State, c: int, name: string, accepted: set<string>, env: Env)
    requires c !in s.calls && Known(s.db, name) && Orders(env.order)
    ensures SoloFree(s, c, name, accepted, env.order(Untracked(s.db.files, name, accepted)), env)
            == SetCall(s, c, Closed).(db := SyncOutcome(s.db, name, accepted, true, env).0, free := s.free + {c})
  {
    var order := env.order(Untracked(s.db.files, name, accepted));
    assert GoSet.Lists(order, Untracked(s.db.files, name, accepted));
    var s1 := SetCall(s, c, Ready(name)).(free := s.free + {c});
    assert Next(s, Enter(c, name)) == s1;
    InsideCall(s1, c, name, accepted, order, env);
    Freed(s1, c, name, SyncOutcome(s.db, name, accepted, true, env).0);
    assert s.calls[c := Ready(name)][c := Closed] == s.calls[c := Closed];
  }

  lemma Freed(s: State, c: int, name: string, db: Tables)
    requires c in s.free
    ensures Next(SetCall(s, c, Leaving(name)).(db := db), Release(c)) == SetCall(s, c, Closed).(db := db)
  {
    assert s.calls[c := Leaving(name)][c := Closed] == s.calls[c := Closed];
  }

  /** What an orderly event is, for every event. */
  lemma OrderlyIff(s: State, e: Event)
    ensures Orderly(s, e) <==>
            && (e.Walk? ==> forall p :: p in e.accepted ==> Paths.IsClean(p))
            && (e.Enter? ==> forall c :: c in s.calls && Inside(s.calls[c]) ==> s.calls[c].name != e.name)
            && (e.Acquire? && e.call in s.calls && s.calls[e.call].Looked? ==>
                  forall c :: c in s.calls && c in s.free && Inside(s.calls[c]) ==>
                    s.calls[c].name != s.calls[e.call].name)
  {
    if e.Enter? && exists c :: Job(s, c, e.name) {
      var c :| Job(s, c, e.name);
      assert c in s.calls && Inside(s.calls[c]) && s.calls[c].name == e.name;
    }
    if e.Enter? && exists c :: c in s.calls && Inside(s.calls[c]) && s.calls[c].name == e.name {
      var c :| c in s.calls && Inside(s.calls[c]) && s.calls[c].name == e.name;
      assert Job(s, c, e.name);
    }
    if e.Acquire? && e.call in s.calls && s.calls[e.call].Looked? {
      RunsFreeIff(s, s.calls[e.call].name);
    }
  }

  lemma RunsFreeIff(s: State, name: string)
    ensures RunsFree(s, name) <==>
      exists c :: c in s.calls && c in s.free && Inside(s.calls[c]) && s.calls[c].name == name
  {
    if c :| c in s.calls && c in s.free && Inside(s.calls[c]) && s.calls[c].name == name {
      assert Job(s, c, name);
    }
  }
}
