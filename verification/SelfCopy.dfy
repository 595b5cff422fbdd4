/**
  A redirection back to where the files are: the flush succeeds, marks the row, and the file is empty.
 */
module SelfCopy {
  import opened Schema
  import opened PendingView
  import opened Protocol
  import opened OneFileServer
  import opened Transfer
  import opened Flush
  import GoSet
  import Paths

  /** A file in the directory that the watcher's redirection targets. */
  function InTarget(name: string): string {
    "/dst/" + name
  }

  /** Where it is: on whatever host the one machine is. */
  function OnlyPlace(name: string, host: Hosts): Place {
    Place(host(Details(OneFile(InTarget(name)).db.machines[0])), InTarget(name))
  }

  lemma InTargetKey(name: string)
    requires ProperName(name)
    ensures var p := InTarget(name); Paths.IsClean(p) && Paths.Dir(p) == "/dst" && Paths.Base(p) == name
    ensures Paths.Join("/dst", name) == InTarget(name)
  {
    var front := ["dst"];
    assert Paths.Slashed(front) == "dst";
    assert Paths.Render(true, front) == "/dst" && Paths.Before(true, front) == "/dst/";
    Paths.RenderSnoc(true, front, name);
    Paths.ParseRender(true, front + [name]);
    Paths.CleanBefore(true, front);
    Paths.DirBaseOfConcat("/dst/", name);
    Paths.JoinNormal(true, front, name);
  }

  /** Its one listed entry is to be copied onto itself. */
  lemma ListedOntoItself(name: string, host: Hosts) returns (item: PendingFlush)
    requires ProperName(name)
    ensures Initial(OneFile(InTarget(name))) && PendingFor(OneFile(InTarget(name)).db, "w") == [item]
    ensures Source(host, item) == Target(host, item) == OnlyPlace(name, host) && item.fileId == 1
  {
    var p := InTarget(name);
    InTargetKey(name);
    OneFileInitial(p);
    var t := OneFile(p).db;
    item := OneListed(p);
    PendingForExact(t, "w", item);
    var f :| f in t.files && Describes(t, f, item);
    var r, w, m, tm := DescribingRows(t, f, item);
  }

  lemma OneCopy(host: Hosts, d: Files, item: PendingFlush)
    requires Feasible(host, d, [item])
    ensures Source(host, item) in d && CopyAll(host, d, [item]) == CopyFile(d, Source(host, item), Target(host, item))
  {
    assert [item][..0] == [];
  }

  lemma OneMarked(t: Tables, item: PendingFlush)
    requires |t.files| == 1 && t.files[0].id == item.fileId
    ensures var files := Effect(t, MarkFiles(GoSet.Elements(IdsOf([item])))).files; |files| == 1 && files[0].flushed
  {
    assert IdsOf([item])[0] == item.fileId;
  }

  /**
    Every successful flush of that server leaves the file empty, with its mode and time, and its row marked as
    flushed.
   */
  lemma SelfFlushEmpties(name: string, host: Hosts, t': Tables, d: Files, d': Files)
    requires ProperName(name) && Flushed(host, OneFile(InTarget(name)).db, t', d, d', "w")
    ensures Initial(OneFile(InTarget(name)))
    ensures var place := OnlyPlace(name, host); place in d && d' == d[place := d[place].(content := "")]
    ensures |t'.files| == 1 && t'.files[0].flushed
  {
    var item := ListedOntoItself(name, host);
    OneCopy(host, d, item);
    OneMarked(OneFile(InTarget(name)).db, item);
  }
}
