/** A server that has just started over a small database, for the runs that go wrong. */
module OneFileServer {
  import opened Schema
  import opened Database
  import opened SyncLaws
  import opened PendingView
  import opened Protocol
  import Paths

  /** One machine, one watcher, its redirection, and one unflushed file with id 1. */
  function OneFile(p: string): State {
    State(Tables([Machine(1, "m", "10.0.0.1", 22, "user", "key", 0, 0)],
                 [Watcher(1, "m", "w", "/", 0, 0)],
                 [NewRow("w", p, false, 0).Row(1)],
                 [Redirection("w", "/dst", "m", 0, 0)]),
          {}, map[], {}, map[], [])
  }

  lemma OneFileConsistent(p: string)
    ensures Consistent(OneFile(p).db) && Known(OneFile(p).db, "w")
  {
    var t := OneFile(p).db;
    assert t.machines[0] in t.machines && t.watchers[0] in t.watchers;
  }

  lemma OneFileInitial(p: string)
    requires Paths.IsClean(p)
    ensures Initial(OneFile(p))
    ensures Known(OneFile(p).db, "w")
  {
    OneFileConsistent(p);
    FreshRowKeyed("w", p, false, 0, 1);
  }

  /** The listing of that state is the one file. */
  lemma OneListed(p: string) returns (item: PendingFlush)
    requires Paths.IsClean(p)
    ensures item.fileId == 1 && KeyOfPending(item) == PathKey("w", p)
    ensures PendingFor(OneFile(p).db, "w") == [item]
  {
    OneFileInitial(p);
    var t := OneFile(p).db;
    var f := t.files[0];
    assert t.redirections[0] in t.redirections && Waiting(t, f);
    JoinIsFilter(t);
    assert WaitingRows(t, t.files) == [f];
    item := JoinView(t)[0];
    var r, w, m, tm := DescribingRows(t, f, item);
    assert JoinView(t) == [item] && PendingWatcher(item) == "w" && [item][1..] == [];
    assert Select([item], PendingWatcher, {"w"}) == [item];
  }
}
