/** The host's mount table and file metadata, as mountd and the node service see them. */
module MountTable {
  import opened Status

  /** A normalised absolute path, one component per element; the empty sequence is the root directory. */
  type Path = seq<string>

  datatype Owner = Owner(uid: nat, gid: nat)

  /** A file on the host's own filesystems, or at a place within the filesystem on a block device. */
  datatype Inode = OnHost(path: Path) | OnDevice(device: Path, rel: Path)

  datatype KernelFlag = NODEV | NOSUID | RDONLY | BIND

  /** One mount: what its root directory is, where it is mounted, and with which flags. */
  datatype Entry = Entry(root: Inode, dst: Path, flags: set<KernelFlag>)

  datatype Meta = Meta(owner: Owner, isDir: bool, readonly: bool)

  /** The mounts, oldest first, and the metadata of every file that exists. */
  datatype World = World(table: seq<Entry>, inodes: map<Inode, Meta>)

  function Below(node: Inode, rest: Path): Inode {
    match node
    case OnHost(path) => OnHost(path + rest)
    case OnDevice(device, rel) => OnDevice(device, rel + rest)
  }

  /** The file a path names: the newest mount at or above it decides. */
  function Resolve(table: seq<Entry>, p: Path): Inode {
    if table == [] then OnHost(p)
    else
      var last := table[|table| - 1];
      if last.dst <= p then Below(last.root, p[|last.dst|..]) else Resolve(table[..|table| - 1], p)
  }

  /** The stack of mounts at a path, topmost last. */
  function At(table: seq<Entry>, d: Path): seq<Entry> {
    if table == [] then []
    else
      var last := table[|table| - 1];
      At(table[..|table| - 1], d) + if last.dst == d then [last] else []
  }

  /** `mountpaths()`. */
  function Mounted(table: seq<Entry>): set<Path> {
    if table == [] then {} else Mounted(table[..|table| - 1]) + {table[|table| - 1].dst}
  }

  /** The table without the topmost mount at a path. */
  function Pop(table: seq<Entry>, d: Path): seq<Entry> {
    if table == [] then []
    else
      var last := table[|table| - 1];
      if last.dst == d then table[..|table| - 1] else Pop(table[..|table| - 1], d) + [last]
  }

  predicate Exists(w: World, p: Path) {
    Resolve(w.table, p) in w.inodes
  }

  predicate IsDir(w: World, p: Path) {
    Exists(w, p) && w.inodes[Resolve(w.table, p)].isDir
  }

  /**
   * The mount system call: an entry for `dst`, rooted at what `src` names when binding and at the
   * filesystem on the device otherwise. It fails when either side is not a directory.
   */
  function OsMount(w: World, src: Path, dst: Path, flags: set<KernelFlag>): Option<World> {
    var root := if BIND in flags then Resolve(w.table, src) else OnDevice(src, []);
    if root in w.inodes && w.inodes[root].isDir && IsDir(w, dst)
    then Some(w.(table := w.table + [Entry(root, dst, flags)]))
    else None
  }

  /** The unmount system call: it takes the topmost mount at the path, and fails when there is none. */
  function OsUnmount(w: World, d: Path): Option<World> {
    if d in Mounted(w.table) then Some(w.(table := Pop(w.table, d))) else None
  }

  function OsChown(w: World, p: Path, owner: Owner): Option<World> {
    var node := Resolve(w.table, p);
    if node in w.inodes then Some(w.(inodes := w.inodes[node := w.inodes[node].(owner := owner)])) else None
  }

  /** At most one mount per path. */
  ghost predicate Unstacked(table: seq<Entry>) {
    forall d :: |At(table, d)| <= 1
  }

  lemma TableAppend(table: seq<Entry>, entry: Entry)
    ensures Mounted(table + [entry]) == Mounted(table) + {entry.dst}
    ensures forall d :: At(table + [entry], d) == At(table, d) + if entry.dst == d then [entry] else []
    ensures forall p ::
      Resolve(table + [entry], p) == if entry.dst <= p then Below(entry.root, p[|entry.dst|..]) else Resolve(table, p)
  {
    assert (table + [entry])[..|table|] == table;
  }

  lemma {:induction false} MountedIffAt(table: seq<Entry>, d: Path)
    ensures d in Mounted(table) <==> At(table, d) != []
  {
    if table != [] {
      MountedIffAt(table[..|table| - 1], d);
    }
  }

  /** Unmounting pops exactly the top of one stack. */
  lemma {:induction false} PopAt(table: seq<Entry>, d: Path, x: Path)
    ensures At(Pop(table, d), x) ==
      if x == d && At(table, d) != [] then At(table, d)[..|At(table, d)| - 1] else At(table, x)
  {
    if table != [] {
      var front, last := table[..|table| - 1], table[|table| - 1];
      if last.dst != d {
        PopAt(front, d, x);
        assert (Pop(front, d) + [last])[..|Pop(front, d)|] == Pop(front, d);
      } else if x == d {
        assert At(table, d) == At(front, d) + [last];
      }
    }
  }

  /** What a path names does not depend on mounts elsewhere than at or above it. */
  lemma {:induction false} PopResolve(table: seq<Entry>, d: Path, p: Path)
    requires !(d <= p)
    ensures Resolve(Pop(table, d), p) == Resolve(table, p)
  {
    if table != [] {
      var front, last := table[..|table| - 1], table[|table| - 1];
      if last.dst != d {
        PopResolve(front, d, p);
        assert (Pop(front, d) + [last])[..|Pop(front, d)|] == Pop(front, d);
      }
    }
  }

  /** On an unstacked table, unmounting deletes the path and nothing else. */
  lemma PopUnstacked(table: seq<Entry>, d: Path)
    requires Unstacked(table)
    ensures Unstacked(Pop(table, d)) && Mounted(Pop(table, d)) == Mounted(table) - {d}
  {
    forall x ensures |At(Pop(table, d), x)| <= 1 {
      PopAt(table, d, x);
    }
    forall x ensures x in Mounted(Pop(table, d)) <==> x in Mounted(table) - {d} {
      PopAt(table, d, x);
      MountedIffAt(table, x);
      MountedIffAt(Pop(table, d), x);
    }
  }

  /** Pop only removes: every entry left was there before. */
  lemma {:induction false} PopKeepsEntries(table: seq<Entry>, d: Path, e: Entry)
    requires e in Pop(table, d)
    ensures e in table
  {
    if table != [] {
      var front, last := table[..|table| - 1], table[|table| - 1];
      if last.dst != d && e != last {
        PopKeepsEntries(front, d, e);
      }
    }
  }
}
