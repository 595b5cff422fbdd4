/**
  When walkers report no error, what a sync accepts is what is on the disk, whether each walker
  shows only the immediate children of its root or any number of levels below it.
 */
module Disk {
  import opened Reachability
  import opened Walk

  datatype Node = Node(path: string, name: string, isDir: bool)

  function AsEntry(n: Node): Entry {
    Entry(n.path, n.name, n.isDir, false)
  }

  /** The directories directly inside a directory. `children` says what is directly inside each. */
  ghost function Subdirs(children: string -> set<Node>): string -> set<string> {
    d => set n | n in children(d) && n.isDir :: n.path
  }

  /** An entry for some node at any depth below `d`. */
  ghost predicate Below(children: string -> set<Node>, d: string, e: Entry) {
    exists p, n :: Reach(Subdirs(children), d, p) && n in children(p) && e == AsEntry(n)
  }

  /**
    A walker of `d`: no errors, nothing but `d` itself and nodes below it, and at least every immediate
    child. The root may be a file, and then its walker shows that file.
   */
  ghost predicate FaithfulAt(walks: string -> seq<Entry>, children: string -> set<Node>, root: Node, d: string) {
    && (forall e :: e in walks(d) ==>
          !e.failed && ((e.isDir && e.path == d) || (d == root.path && e == AsEntry(root)) || Below(children, d, e)))
    && (forall n :: n in children(d) ==> AsEntry(n) in walks(d))
    && (d == root.path && !root.isDir ==> AsEntry(root) in walks(d))
  }

  ghost predicate Faithful(walks: string -> seq<Entry>, children: string -> set<Node>, root: Node) {
    forall d :: Reach(Subdirs(children), root.path, d) ==> FaithfulAt(walks, children, root, d)
  }

  /** The root or a node of the tree below it. */
  ghost predicate InTree(children: string -> set<Node>, root: Node, n: Node) {
    n == root || exists d :: Reach(Subdirs(children), root.path, d) && n in children(d)
  }

  /** A file of the tree, not called ".tfwignore", whose path no rule of a readable ignore file matches. */
  ghost predicate FileUnder(children: string -> set<Node>, f: IgnoreFile, root: Node, path: string) {
    && (exists n :: InTree(children, root, n) && !n.isDir && n.path == path && n.name != ".tfwignore")
    && !(f.Compiled? && f.matches(root.path, path))
  }

  lemma ShownDirIsReachable(walks: string -> seq<Entry>, children: string -> set<Node>, root: Node, d: string,
                            e: string)
    requires Faithful(walks, children, root) && Reach(Subdirs(children), root.path, d) && e in DirsIn(walks(d))
    ensures Reach(Subdirs(children), root.path, e)
  {
    DirsInMember(walks(d), e);
    var x :| x in walks(d) && e in DirOf(x);
    if x.path != d {
      assert Below(children, d, x);
      var p, n :| Reach(Subdirs(children), d, p) && n in children(p) && x == AsEntry(n);
      ReachTransitive(Subdirs(children), root.path, d, p);
      ReachStep(Subdirs(children), root.path, p, e);
    }
  }

  /** Walkers and the tree reach the same directories. */
  lemma SameReach(walks: string -> seq<Entry>, children: string -> set<Node>, root: Node)
    requires Faithful(walks, children, root)
    ensures forall d :: Reach(Shows(walks), root.path, d) <==> Reach(Subdirs(children), root.path, d)
  {
    var onTree := iset d | Reach(Subdirs(children), root.path, d);
    ReachSelf(Subdirs(children), root.path);
    forall d, e | d in onTree && e in Shows(walks)(d) ensures e in onTree {
      ShownDirIsReachable(walks, children, root, d, e);
    }
    ReachClosed(Shows(walks), root.path, onTree);
    var both := iset d | d in onTree && Reach(Shows(walks), root.path, d);
    ReachSelf(Shows(walks), root.path);
    forall d, e | d in both && e in Subdirs(children)(d) ensures e in both {
      var n :| n in children(d) && n.isDir && n.path == e;
      assert AsEntry(n) in walks(d) && e in DirOf(AsEntry(n));
      DirsInMember(walks(d), e);
      ReachStep(Shows(walks), root.path, d, e);
      ReachStep(Subdirs(children), root.path, d, e);
    }
    ReachClosed(Subdirs(children), root.path, both);
  }

  /** An entry that is not a directory stands for a node of the tree. */
  lemma EntryIsNode(walks: string -> seq<Entry>, children: string -> set<Node>, root: Node, d: string, e: Entry)
    returns (n: Node)
    requires Faithful(walks, children, root) && Reach(Subdirs(children), root.path, d) && e in walks(d) && !e.isDir
    ensures InTree(children, root, n) && e == AsEntry(n)
  {
    if e == AsEntry(root) {
      n := root;
    } else {
      var p;
      p, n :| Reach(Subdirs(children), d, p) && n in children(p) && e == AsEntry(n);
      ReachTransitive(Subdirs(children), root.path, d, p);
    }
  }

  /** A file of the tree is shown by the walker of some reachable directory, or of the root. */
  lemma NodeIsShown(walks: string -> seq<Entry>, children: string -> set<Node>, root: Node, n: Node) returns (d: string)
    requires Faithful(walks, children, root) && InTree(children, root, n) && !n.isDir
    ensures Reach(Subdirs(children), root.path, d) && AsEntry(n) in walks(d)
  {
    ReachSelf(Subdirs(children), root.path);
    if n == root {
      d := root.path;
    } else {
      d :| Reach(Subdirs(children), root.path, d) && n in children(d);
    }
  }

  /** What the walkers show is the tree. */
  lemma SeenIsDisk(walks: string -> seq<Entry>, children: string -> set<Node>, f: IgnoreFile, root: Node, path: string)
    requires Faithful(walks, children, root)
    ensures Seen(walks, f, root.path, path) <==> FileUnder(children, f, root, path)
  {
    SameReach(walks, children, root);
    if Seen(walks, f, root.path, path) {
      var d, e :| Reach(Shows(walks), root.path, d) && e in walks(d) && !e.failed && !e.isDir && e.path == path
                  && e.name != ".tfwignore";
      var n := EntryIsNode(walks, children, root, d, e);
    }
    if FileUnder(children, f, root, path) {
      var n :| InTree(children, root, n) && !n.isDir && n.path == path && n.name != ".tfwignore";
      var d := NodeIsShown(walks, children, root, n);
      assert AsEntry(n) in walks(d);
    }
  }

  /** The accepted paths are exactly the files of the tree that are not to be ignored. */
  lemma AcceptsDisk(walks: string -> seq<Entry>, children: string -> set<Node>, f: IgnoreFile, root: Node, path: string)
    requires Faithful(walks, children, root)
    ensures Accepts(walks, LoadIgnore(f), root.path, path) <==> FileUnder(children, f, root, path)
  {
    AcceptsExactly(walks, f, root.path, path);
    SeenIsDisk(walks, children, f, root, path);
  }
}
