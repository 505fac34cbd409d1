/** The serial mount daemon as a set of mounted paths, and what a caller can undo. */
module MountRefinement {
  import opened Status
  import opened MountTable
  import opened Mountd

  /** The path a mount request is about. */
  function Dst(req: MountRequest): Option<Path> {
    match req.mount case Some(pair) => pair.dst case None => None
  }

  /** A request to the daemon with the system calls of its that fail. */
  datatype Op = DoMount(req: MountRequest, faults: Faults) | DoUnmount(path: Option<Path>, faults: Faults)

  datatype End = OfMount(mount: MountEnd) | OfUnmount(unmount: UnmountEnd)

  function ApplyOp(cfg: Config, w: World, op: Op): (World, End) {
    match op
    case DoMount(req, faults) => var (later, end) := MountAlone(cfg, w, req, faults); (later, OfMount(end))
    case DoUnmount(path, faults) => var (later, end) := UnmountAlone(cfg, w, path, faults); (later, OfUnmount(end))
  }

  /** A file is there, and it is on the whitelist or owned by the configured user and group. */
  ghost predicate Permitted(cfg: Config, w: World, p: Path) {
    && Resolve(w.table, p) in w.inodes
    && (cfg.whitelisted(p)
        || (&& w.inodes[Resolve(w.table, p)].owner.uid == cfg.owner.uid
            && w.inodes[Resolve(w.table, p)].owner.gid == cfg.owner.gid))
  }

  /** A file is there, and its permissions are read-only. */
  ghost predicate ReadOnlyFile(w: World, p: Path) {
    Resolve(w.table, p) in w.inodes && w.inodes[Resolve(w.table, p)].readonly
  }

  ghost predicate Directory(w: World, node: Inode) {
    node in w.inodes && w.inodes[node].isDir
  }

  /** Both ends of a mount request, when it has them. */
  ghost predicate Ends(req: MountRequest, src: Path, dst: Path) {
    req.mount == Some(MountPair(Some(src), Some(dst)))
  }

  /** The request passes the guard at both ends; asking for read-only asks more of the destination. */
  ghost predicate MountPermitted(cfg: Config, w: World, req: MountRequest, src: Path, dst: Path) {
    Permitted(cfg, w, src) && Permitted(cfg, w, dst) && !(1 in req.flags && ReadOnlyFile(w, dst))
  }

  /**
   * When a mount is answered OK: the table could be read, both ends are given and pass the guard, the
   * destination is a directory, and either it is mounted already or every flag decodes, there is a directory
   * to mount and both system calls go through.
   */
  lemma MountOkExactly(cfg: Config, w: World, req: MountRequest, faults: Faults)
    ensures MountReply(MountAlone(cfg, w, req, faults).1).Ok? <==>
      && !faults.table
      && exists src, dst :: Ends(req, src, dst)
           && MountPermitted(cfg, w, req, src, dst) && Directory(w, Resolve(w.table, dst))
           && (dst in Mounted(w.table)
               || (&& (forall flag :: flag in req.flags ==> 0 <= flag <= 2) && !faults.call && !faults.chown
                   && Directory(w, if 2 in req.flags then Resolve(w.table, src) else OnDevice(src, []))))
  {
    if req.mount.Some? && req.mount.value.src.Some? && req.mount.value.dst.Some? {
      var src, dst := req.mount.value.src.value, req.mount.value.dst.value;
      assert Ends(req, src, dst);
      MountAnswers(cfg, w, req, faults, src, dst);
      hide MountAlone, MountPermitted, Directory, Resolve, Mounted;
      forall x, y | Ends(req, x, y) ensures x == src && y == dst {
      }
    }
  }

  /**
   * Every answer to a mount request that has both ends. InvalidArgument is left for an undecodable flag on a
   * permitted, unmounted directory, and Internal for what the system calls came to. The owner change is what
   * failed, leaving the mount, exactly when everything before it went through.
   */
  lemma MountAnswers(cfg: Config, w: World, req: MountRequest, faults: Faults, src: Path, dst: Path)
    requires Ends(req, src, dst)
    ensures var reply := MountReply(MountAlone(cfg, w, req, faults).1);
      var permitted, dir := MountPermitted(cfg, w, req, src, dst), Directory(w, Resolve(w.table, dst));
      var decodes := forall flag :: flag in req.flags ==> 0 <= flag <= 2;
      var mounts := !faults.call && Directory(w, if 2 in req.flags then Resolve(w.table, src) else OnDevice(src, []));
      && (reply == Err(PermissionDenied) <==> !faults.table && !permitted)
      && (reply == Err(FailedPrecondition) <==> !faults.table && permitted && !dir)
      && (reply == Err(InvalidArgument) <==>
            !faults.table && permitted && dir && dst !in Mounted(w.table) && !decodes)
      && (reply == Err(Internal) <==>
            faults.table || (permitted && dir && dst !in Mounted(w.table) && decodes && !(mounts && !faults.chown)))
      && (reply.Ok? <==>
            !faults.table && permitted && dir && (dst in Mounted(w.table) || (decodes && mounts && !faults.chown)))
      && (MountAlone(cfg, w, req, faults).1 == ChownFailed <==>
            !faults.table && permitted && dir && dst !in Mounted(w.table) && decodes && mounts && faults.chown)
  {
    CollectFlagsExact(req.flags);
    hide CollectFlags, Resolve, At, Mounted;
    if CollectFlags(req.flags).Some? {
      var entry := NewEntry(w.table, req);
      TableAppend(w.table, entry);
      BelowSelf(entry.root);
      assert entry.dst[|entry.dst|..] == [];
    }
  }

  /**
   * The check of a mount request against any snapshot: a permitted directory shorts out exactly when the
   * snapshot has it, whatever is mounted by then, and gets as far as the system call exactly when the snapshot
   * lacks it and every flag decodes.
   */
  lemma CheckExactly(cfg: Config, w: World, req: MountRequest, mounts: set<Path>, src: Path, dst: Path)
    requires Ends(req, src, dst)
    ensures var stage := CheckMount(cfg, w, req, mounts);
      var ready := MountPermitted(cfg, w, req, src, dst) && Directory(w, Resolve(w.table, dst));
      && (stage == MountEnded(AlreadyMounted) <==> ready && dst in mounts)
      && (stage.CallMount? <==>
            ready && dst !in mounts && forall flag :: flag in req.flags ==> 0 <= flag <= 2)
      && (stage.CallMount? ==> stage.src == src && stage.dst == dst && FlagsAsRequested(stage.flags, req.flags))
      && (stage.CallMount? || stage == MountEnded(AlreadyMounted) || stage == MountEnded(MountRefused(InvalidArgument))
          || stage == MountEnded(MountRefused(PermissionDenied))
          || stage == MountEnded(MountRefused(FailedPrecondition)))
  {
    CollectFlagsExact(req.flags);
    hide CollectFlags, Resolve;
  }

  /** The same for an unmount: the snapshot alone says whether there is anything to do. */
  lemma CheckUnmountExactly(cfg: Config, w: World, d: Path, mounts: set<Path>)
    ensures var stage := CheckUnmount(cfg, w, Some(d), mounts);
      && (stage == UnmountEnded(NotMounted) <==> d !in mounts)
      && (stage == CallUnmount(d) <==> d in mounts && Permitted(cfg, w, d))
      && (stage == UnmountEnded(UnmountRefused(PermissionDenied)) <==> d in mounts && !Permitted(cfg, w, d))
  {
  }

  /** A mount request without both ends is refused with InvalidArgument once the table has been read. */
  lemma EndsMissing(cfg: Config, w: World, req: MountRequest, faults: Faults)
    requires !exists src, dst :: Ends(req, src, dst)
    ensures MountAlone(cfg, w, req, faults) == (w, MountRefused(if faults.table then Internal else InvalidArgument))
  {
    if req.mount.Some? && req.mount.value.src.Some? && req.mount.value.dst.Some? {
      assert Ends(req, req.mount.value.src.value, req.mount.value.dst.value);
    }
  }

  /**
   * Every answer to an unmount. OK: the table could be read, a path is given, and either it is not mounted or
   * it passes the guard and the system call goes through. PermissionDenied means exactly that a mounted path
   * does not pass the guard, InvalidArgument that there is no path.
   */
  lemma UnmountOkExactly(cfg: Config, w: World, path: Option<Path>, faults: Faults)
    ensures var reply := UnmountReply(UnmountAlone(cfg, w, path, faults).1);
      && (reply.Ok? <==>
            && !faults.table && path.Some?
            && (path.value !in Mounted(w.table) || (Permitted(cfg, w, path.value) && !faults.call)))
      && (reply == Err(PermissionDenied) <==>
            && !faults.table && path.Some?
            && path.value in Mounted(w.table) && !Permitted(cfg, w, path.value))
      && (reply == Err(InvalidArgument) <==> !faults.table && path.None?)
      && (reply == Err(Internal) <==>
            || faults.table
            || (&& path.Some? && path.value in Mounted(w.table) && Permitted(cfg, w, path.value)
                && faults.call))
  {
    if path.Some? {
      assert path.value in Mounted(w.table) ==> OsUnmount(w, path.value).Some?;
    }
  }

  /** The plain set of mounted paths: what each kind of ending does to it. */
  function SetStep(paths: set<Path>, op: Op, end: End): set<Path> {
    match (op, end)
    case (DoMount(req, _), OfMount(NewlyMounted)) => if Dst(req).Some? then paths + {Dst(req).value} else paths
    case (DoMount(req, _), OfMount(AlreadyMounted)) => if Dst(req).Some? then paths + {Dst(req).value} else paths
    case (DoMount(req, _), OfMount(ChownFailed)) => if Dst(req).Some? then paths + {Dst(req).value} else paths
    case (DoUnmount(Some(d), _), OfUnmount(Unmounted)) => paths - {d}
    case (DoUnmount(Some(d), _), OfUnmount(NotMounted)) => paths - {d}
    case _ => paths
  }

  /** The path an operation is about. */
  function About(op: Op): Option<Path> {
    match op
    case DoMount(req, _) => Dst(req)
    case DoUnmount(path, _) => path
  }

  /** The entry a mount request adds when it gets that far. */
  function NewEntry(table: seq<Entry>, req: MountRequest): Entry
    requires req.mount.Some? && req.mount.value.src.Some? && req.mount.value.dst.Some? && CollectFlags(req.flags).Some?
  {
    var src, flags := req.mount.value.src.value, CollectFlags(req.flags).value + {NODEV, NOSUID};
    Entry(if BIND in flags then Resolve(table, src) else OnDevice(src, []), req.mount.value.dst.value, flags)
  }

  /** A request that ends without mounting leaves the host as it was. */
  lemma MountAloneKeeps(cfg: Config, w: World, req: MountRequest, faults: Faults)
    ensures var (later, end) := MountAlone(cfg, w, req, faults);
      && (end == AlreadyMounted ==> later == w && Dst(req).Some? && Dst(req).value in Mounted(w.table))
      && (end.MountRefused? ==> later == w)
  {
  }

  /** A request that mounts adds its one entry, on a path that was not mounted. */
  lemma MountAloneAdds(cfg: Config, w: World, req: MountRequest, faults: Faults)
    requires MountAlone(cfg, w, req, faults).1 == NewlyMounted || MountAlone(cfg, w, req, faults).1 == ChownFailed
    ensures req.mount.Some? && req.mount.value.src.Some? && Dst(req).Some? && CollectFlags(req.flags).Some?
    ensures Dst(req).value !in Mounted(w.table)
    ensures var (later, end) := MountAlone(cfg, w, req, faults);
      var entry := NewEntry(w.table, req);
      && later.table == w.table + [entry] && entry.root in w.inodes
      && later.inodes == (if end == NewlyMounted
                          then w.inodes[entry.root := w.inodes[entry.root].(owner := cfg.owner)] else w.inodes)
      && (end == ChownFailed <==> faults.chown)
  {
    hide CollectFlags, Resolve, At, Mounted, Interactable;
    var entry := NewEntry(w.table, req);
    TableAppend(w.table, entry);
    BelowSelf(entry.root);
    assert entry.dst[|entry.dst|..] == [];
  }

  /**
   * What a mount alone does to the host: a new entry for `dst` exactly when it ends NewlyMounted or with a
   * failed chown, rooted and flagged as requested, and the root handed to the configured pair unless the
   * chown failed; nothing in every other case.
   */
  lemma MountAloneEffect(cfg: Config, w: World, req: MountRequest, faults: Faults)
    ensures var (later, end) := MountAlone(cfg, w, req, faults);
      && (end == NewlyMounted || end == ChownFailed ==>
            && req.mount.Some? && req.mount.value.src.Some? && Dst(req).Some? && Dst(req).value !in Mounted(w.table)
            && Decodable(req.flags)
            && |later.table| == |w.table| + 1 && later.table[..|w.table|] == w.table
            && var entry := later.table[|w.table|];
               && entry.dst == Dst(req).value && FlagsAsRequested(entry.flags, req.flags)
               && entry.root == (if 2 in req.flags then Resolve(w.table, req.mount.value.src.value)
                                 else OnDevice(req.mount.value.src.value, []))
               && entry.root in w.inodes
               && later.inodes
                    == (if end == NewlyMounted
                        then w.inodes[entry.root := w.inodes[entry.root].(owner := cfg.owner)] else w.inodes))
      && (end == AlreadyMounted ==> later == w && Dst(req).Some? && Dst(req).value in Mounted(w.table))
      && (end.MountRefused? ==> later == w)
      && (end == ChownFailed ==> faults.chown)
  {
    CollectFlagsExact(req.flags);
    MountAloneKeeps(cfg, w, req, faults);
    var (later, end) := MountAlone(cfg, w, req, faults);
    hide MountAlone;
    if end == NewlyMounted || end == ChownFailed {
      MountAloneAdds(cfg, w, req, faults);
    }
  }

  lemma BelowSelf(root: Inode)
    ensures Below(root, []) == root
  {
    match root
    case OnHost(path) => assert path + [] == path;
    case OnDevice(_, rel) => assert rel + [] == rel;
  }

  /** What an unmount alone does: it pops `path` exactly when it ends Unmounted. */
  lemma UnmountAloneEffect(cfg: Config, w: World, path: Option<Path>, faults: Faults)
    ensures var (later, end) := UnmountAlone(cfg, w, path, faults);
      && (end == Unmounted ==> path.Some? && path.value in Mounted(w.table)
                               && later == w.(table := Pop(w.table, path.value)))
      && (end == NotMounted ==> later == w && path.Some? && path.value !in Mounted(w.table))
      && (end.UnmountRefused? ==> later == w)
  {
  }

  /**
   * Refinement: from an unstacked table every operation is a step of the set of mounted paths, stays
   * unstacked, and leaves the mounts of every other path entry for entry as they were. An operation whose
   * effect on the set is already there (a mount of a mounted path, an unmount of an unmounted one) changes
   * nothing at all, and so does every error but a failed chown, which adds exactly `dst`.
   */
  lemma OpRefinesSet(cfg: Config, w: World, op: Op)
    requires Unstacked(w.table)
    ensures var (later, end) := ApplyOp(cfg, w, op);
      && Unstacked(later.table)
      && Mounted(later.table) == SetStep(Mounted(w.table), op, end)
      && (forall x :: Some(x) != About(op) ==> At(later.table, x) == At(w.table, x))
      && (SetStep(Mounted(w.table), op, end) == Mounted(w.table) ==> later.table == w.table)
      && (op.DoMount? && MountReply(end.mount).Err? && later != w ==>
            end.mount == ChownFailed && Dst(op.req).Some? && Dst(op.req).value !in Mounted(w.table)
            && Mounted(later.table) == Mounted(w.table) + {Dst(op.req).value})
      && (op.DoUnmount? && UnmountReply(end.unmount).Err? ==> later == w)
  {
    var (later, end) := ApplyOp(cfg, w, op);
    hide MountAlone, UnmountAlone;
    match op
    case DoMount(req, faults) =>
      MountAloneEffect(cfg, w, req, faults);
      if end.mount == NewlyMounted || end.mount == ChownFailed {
        var d := Dst(req).value;
        var entry := later.table[|w.table|];
        TableAppend(w.table, entry);
        MountedIffAt(w.table, d);
        assert d in Mounted(later.table) && d !in Mounted(w.table);
        forall x ensures |At(later.table, x)| <= 1 {
          assert |At(w.table, x)| <= 1;
        }
      }
    case DoUnmount(path, faults) =>
      UnmountAloneEffect(cfg, w, path, faults);
      if end.unmount == Unmounted {
        PopUnstacked(w.table, path.value);
        forall x | Some(x) != About(op) ensures At(later.table, x) == At(w.table, x) {
          PopAt(w.table, path.value, x);
        }
      }
  }

  function RunOps(cfg: Config, w: World, ops: seq<Op>): World {
    if ops == [] then w else ApplyOp(cfg, RunOps(cfg, w, ops[..|ops| - 1]), ops[|ops| - 1]).0
  }

  /** The set a caller would track from the endings alone. */
  function RunSet(cfg: Config, w: World, ops: seq<Op>): set<Path> {
    if ops == [] then Mounted(w.table)
    else
      var front, op := ops[..|ops| - 1], ops[|ops| - 1];
      SetStep(RunSet(cfg, w, front), op, ApplyOp(cfg, RunOps(cfg, w, front), op).1)
  }

  /** Over any serial run from an unstacked table, the table stays unstacked and shows exactly the tracked set. */
  lemma {:induction false} RunRefinesSet(cfg: Config, w: World, ops: seq<Op>)
    requires Unstacked(w.table)
    ensures Unstacked(RunOps(cfg, w, ops).table)
    ensures Mounted(RunOps(cfg, w, ops).table) == RunSet(cfg, w, ops)
  {
    if ops != [] {
      RunRefinesSet(cfg, w, ops[..|ops| - 1]);
      OpRefinesSet(cfg, RunOps(cfg, w, ops[..|ops| - 1]), ops[|ops| - 1]);
    }
  }

  /** `d` is mounted, and whitelisted or owned by the configured pair. */
  predicate Undoable(cfg: Config, w: World, d: Path) {
    d in Mounted(w.table) && Interactable(cfg, w, d, false)
  }

  /** An OK mount passed the guard on its destination. */
  lemma OkMountChecked(cfg: Config, w: World, req: MountRequest, faults: Faults)
    requires MountReply(MountAlone(cfg, w, req, faults).1).Ok?
    ensures Dst(req).Some? && Interactable(cfg, w, Dst(req).value, false)
  {
  }

  /** Every mount answered OK, newly made or shorted out, leaves its path undoable. */
  lemma OkMountUndoable(cfg: Config, w: World, req: MountRequest, faults: Faults)
    requires MountReply(MountAlone(cfg, w, req, faults).1).Ok?
    ensures Dst(req).Some? && Undoable(cfg, MountAlone(cfg, w, req, faults).0, Dst(req).value)
  {
    MountAloneEffect(cfg, w, req, faults);
    OkMountChecked(cfg, w, req, faults);
    hide MountAlone;
    var (later, end) := MountAlone(cfg, w, req, faults);
    if end == NewlyMounted {
      TableAppend(w.table, later.table[|w.table|]);
    }
  }

  /** Operations elsewhere than at or above `d` keep it undoable: owners only ever change to the configured pair. */
  lemma OpKeepsUndoable(cfg: Config, w: World, op: Op, d: Path)
    requires Undoable(cfg, w, d) && (About(op).Some? ==> !(About(op).value <= d))
    ensures Undoable(cfg, ApplyOp(cfg, w, op).0, d)
  {
    var (later, end) := ApplyOp(cfg, w, op);
    hide MountAlone, UnmountAlone;
    match op
    case DoMount(req, faults) =>
      MountAloneEffect(cfg, w, req, faults);
      if end.mount == NewlyMounted || end.mount == ChownFailed {
        TableAppend(w.table, later.table[|w.table|]);
        assert Resolve(later.table, d) == Resolve(w.table, d);
      }
    case DoUnmount(path, faults) =>
      UnmountAloneEffect(cfg, w, path, faults);
      if end.unmount == Unmounted {
        PopResolve(w.table, path.value, d);
        PopAt(w.table, path.value, d);
        MountedIffAt(w.table, d);
        MountedIffAt(later.table, d);
      }
  }

  /**
   * Undoability over whole runs: after an OK mount of `d`, and then any operations elsewhere than at or
   * above `d`, an unmount of `d` is never answered PermissionDenied.
   */
  lemma {:induction false} MountCanBeUndone(cfg: Config, w: World, req: MountRequest, faults: Faults,
                                            ops: seq<Op>, more: Faults)
    requires MountReply(MountAlone(cfg, w, req, faults).1).Ok?
    requires forall k :: 0 <= k < |ops| && About(ops[k]).Some? ==>
      Dst(req).Some? && !(About(ops[k]).value <= Dst(req).value)
    ensures Dst(req).Some?
    ensures var s := RunOps(cfg, MountAlone(cfg, w, req, faults).0, ops);
      Undoable(cfg, s, Dst(req).value) && UnmountReply(UnmountAlone(cfg, s, Dst(req), more).1) != Err(PermissionDenied)
  {
    hide MountAlone;
    OkMountUndoable(cfg, w, req, faults);
    if ops != [] {
      var front := ops[..|ops| - 1];
      MountCanBeUndone(cfg, w, req, faults, front, more);
      OpKeepsUndoable(cfg, RunOps(cfg, MountAlone(cfg, w, req, faults).0, front), ops[|ops| - 1], Dst(req).value);
    }
  }

  /**
   * What a failed chown leaves: the path is mounted, and an unmount of it whose table read works is answered
   * PermissionDenied exactly when the path is not whitelisted and the new root is not owned by the configured
   * pair. Then a retry of the mount is answered PermissionDenied as well: the path is stuck.
   */
  lemma FailedChownSticks(cfg: Config, w: World, req: MountRequest, faults: Faults, more: Faults)
    requires MountAlone(cfg, w, req, faults).1 == ChownFailed && !more.table
    ensures Dst(req).Some?
    ensures var later, d := MountAlone(cfg, w, req, faults).0, Dst(req).value;
      && d in Mounted(later.table) && Exists(later, d)
      && var stuck := !cfg.whitelisted(d) && later.inodes[Resolve(later.table, d)].owner != cfg.owner;
         && (UnmountReply(UnmountAlone(cfg, later, Dst(req), more).1) == Err(PermissionDenied) <==> stuck)
         && (stuck ==> MountReply(MountAlone(cfg, later, req, more).1) == Err(PermissionDenied))
  {
    MountAloneAdds(cfg, w, req, faults);
    var later, entry := MountAlone(cfg, w, req, faults).0, NewEntry(w.table, req);
    TableAppend(w.table, entry);
    BelowSelf(entry.root);
    assert entry.dst[|entry.dst|..] == [];
    hide MountAlone, Resolve, Mounted, CollectFlags;
    UnmountOkExactly(cfg, later, Dst(req), more);
    var src, d := req.mount.value.src.value, Dst(req).value;
    assert Ends(req, src, d);
    MountAnswers(cfg, later, req, more, src, d);
  }

  /** One undecodable flag on an unmounted path, however permitted, mounts nothing. */
  lemma UndecodableFlagMountsNothing(cfg: Config, w: World, req: MountRequest, faults: Faults)
    requires !Decodable(req.flags) && (Dst(req).Some? ==> Dst(req).value !in Mounted(w.table))
    ensures MountAlone(cfg, w, req, faults).0 == w && MountReply(MountAlone(cfg, w, req, faults).1).Err?
  {
    MountAloneEffect(cfg, w, req, faults);
  }
}
