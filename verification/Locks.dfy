/** The per-watcher mutexes of the service. */
module Locks {

  class SyncLocks {
    /** One mutex per watcher name, created on first use and never removed; true while held. */
    var mutexes: map<string, bool>

    /** The names whose mutex is held. */
    ghost function Held(): set<string>
      reads this
    {
      set n | n in mutexes && mutexes[n]
    }

    constructor ()
      ensures Held() == {}
    {
      mutexes := map[];
    }

    method TryLock(name: string) returns (ok: bool)
      modifies this
      ensures ok == (name !in old(Held()))
      ensures Held() == old(Held()) + {name}
    {
      if name !in mutexes {
        mutexes := mutexes[name := false];
      }
      ok := !mutexes[name];
      mutexes := mutexes[name := true];
    }

    method Unlock(name: string)
      modifies this
      ensures Held() == old(Held()) - {name}
    {
      mutexes := mutexes[name := false];
    }
  }
}
