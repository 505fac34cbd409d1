/** The mount daemon: its configuration guard, its flags, and its two handlers step by step. */
module Mountd {
  import opened Status
  import opened MachineInts
  import opened MountTable

  /** The configured user and group, and the whitelist as the predicate its globs denote. */
  datatype Config = Config(owner: Owner, whitelisted: Path -> bool)

  /** An empty path text is None. */
  datatype MountPair = MountPair(src: Option<Path>, dst: Option<Path>)

  datatype MountRequest = MountRequest(mount: Option<MountPair>, flags: seq<i32>)

  const READ_ONLY: i32 := 1
  const BIND_FLAG: i32 := 2

  /** `ensure_interactable`: the read-only test refuses a path whose permissions are read-only, as written. */
  predicate Interactable(cfg: Config, w: World, p: Path, readonly: bool) {
    && Exists(w, p)
    && var meta := w.inodes[Resolve(w.table, p)];
       && !(readonly && meta.readonly)
       && (cfg.whitelisted(p) || meta.owner == cfg.owner)
  }

  /** `MountFlag::from_i32` and its conversion to a kernel flag. */
  function DecodeFlag(flag: i32): Option<set<KernelFlag>> {
    if flag == 0 then Some({})
    else if flag == READ_ONLY then Some({RDONLY})
    else if flag == BIND_FLAG then Some({BIND})
    else None
  }

  /** The union of the decoded flags, or None when one does not decode. */
  function CollectFlags(flags: seq<i32>): Option<set<KernelFlag>> {
    if flags == [] then Some({})
    else
      match (DecodeFlag(flags[0]), CollectFlags(flags[1..]))
      case (Some(first), Some(rest)) => Some(first + rest)
      case _ => None
  }

  predicate Decodable(flags: seq<i32>) {
    forall f :: f in flags ==> 0 <= f <= 2
  }

  /** What a mount was asked for (1 is read-only, 2 is bind), whatever the order or repetition of the flags. */
  predicate FlagsAsRequested(kernel: set<KernelFlag>, flags: seq<i32>) {
    && NODEV in kernel && NOSUID in kernel
    && (BIND in kernel <==> 2 in flags)
    && (RDONLY in kernel <==> 1 in flags)
  }

  lemma {:induction false} CollectFlagsExact(flags: seq<i32>)
    ensures CollectFlags(flags).Some? <==> Decodable(flags)
    ensures CollectFlags(flags).Some? ==> FlagsAsRequested(CollectFlags(flags).value + {NODEV, NOSUID}, flags)
  {
    if flags != [] {
      CollectFlagsExact(flags[1..]);
      assert forall f :: f in flags <==> f == flags[0] || f in flags[1..];
      assert Decodable(flags) <==> 0 <= flags[0] <= 2 && Decodable(flags[1..]) by {
        if Decodable(flags) {
          assert flags[0] in flags;
        }
      }
    }
  }

  /** How a mount request ended. The first two are answered OK. */
  datatype MountEnd = NewlyMounted | AlreadyMounted | MountRefused(code: Code) | ChownFailed

  function MountReply(end: MountEnd): Result<()> {
    match end
    case NewlyMounted => Ok(())
    case AlreadyMounted => Ok(())
    case MountRefused(code) => Err(code)
    case ChownFailed => Err(Internal)
  }

  /** Where a mount request stands; `mounts` is its snapshot of the mounted paths. */
  datatype MountStage =
    | ReadTable
    | Check(mounts: set<Path>)
    | CallMount(src: Path, dst: Path, flags: set<KernelFlag>)
    | CallChown(dst: Path)
    | MountEnded(end: MountEnd)
    | MountDropped

  datatype UnmountEnd = Unmounted | NotMounted | UnmountRefused(code: Code)

  function UnmountReply(end: UnmountEnd): Result<()> {
    match end
    case Unmounted => Ok(())
    case NotMounted => Ok(())
    case UnmountRefused(code) => Err(code)
  }

  datatype UnmountStage =
    | ReadTableU
    | CheckU(mounts: set<Path>)
    | CallUnmount(d: Path)
    | UnmountEnded(end: UnmountEnd)
    | UnmountDropped

  /** The validation of a mount request against the host as it is now and the snapshot taken before. */
  function CheckMount(cfg: Config, w: World, req: MountRequest, mounts: set<Path>): MountStage {
    if req.mount.None? then MountEnded(MountRefused(InvalidArgument))
    else if req.mount.value.src.None? then MountEnded(MountRefused(InvalidArgument))
    else if req.mount.value.dst.None? then MountEnded(MountRefused(InvalidArgument))
    else
      var src, dst := req.mount.value.src.value, req.mount.value.dst.value;
      if !Interactable(cfg, w, src, false) then MountEnded(MountRefused(PermissionDenied))
      else if !Interactable(cfg, w, dst, READ_ONLY in req.flags) then MountEnded(MountRefused(PermissionDenied))
      else if !IsDir(w, dst) then MountEnded(MountRefused(FailedPrecondition))
      else if dst in mounts then MountEnded(AlreadyMounted)
      else
        match CollectFlags(req.flags)
        case None => MountEnded(MountRefused(InvalidArgument))
        case Some(flags) => CallMount(src, dst, flags + {NODEV, NOSUID})
  }

  function CheckUnmount(cfg: Config, w: World, path: Option<Path>, mounts: set<Path>): UnmountStage {
    match path
    case None => UnmountEnded(UnmountRefused(InvalidArgument))
    case Some(d) =>
      if d !in mounts then UnmountEnded(NotMounted)
      else if !Interactable(cfg, w, d, false) then UnmountEnded(UnmountRefused(PermissionDenied))
      else CallUnmount(d)
  }

  /** Whether the step's own system call goes through, fails, or the request is dropped before it. */
  datatype Turn = Goes | Fails | Drops

  function StepMount(cfg: Config, w: World, req: MountRequest, stage: MountStage, turn: Turn): (World, MountStage) {
    if stage.MountEnded? || stage.MountDropped? then (w, stage)
    else if turn.Drops? then (w, MountDropped)
    else
      match stage
      case ReadTable => (w, if turn.Fails? then MountEnded(MountRefused(Internal)) else Check(Mounted(w.table)))
      case Check(mounts) => (w, CheckMount(cfg, w, req, mounts))
      case CallMount(src, dst, flags) =>
        (match OsMount(w, src, dst, flags)
         case Some(later) => if turn.Goes? then (later, CallChown(dst)) else (w, MountEnded(MountRefused(Internal)))
         case None => (w, MountEnded(MountRefused(Internal))))
      case CallChown(dst) =>
        (match OsChown(w, dst, cfg.owner)
         case Some(later) => if turn.Goes? then (later, MountEnded(NewlyMounted)) else (w, MountEnded(ChownFailed))
         case None => (w, MountEnded(ChownFailed)))
  }

  function StepUnmount(cfg: Config, w: World, path: Option<Path>, stage: UnmountStage, turn: Turn)
    : (World, UnmountStage)
  {
    if stage.UnmountEnded? || stage.UnmountDropped? then (w, stage)
    else if turn.Drops? then (w, UnmountDropped)
    else
      match stage
      case ReadTableU => (w, if turn.Fails? then UnmountEnded(UnmountRefused(Internal)) else CheckU(Mounted(w.table)))
      case CheckU(mounts) => (w, CheckUnmount(cfg, w, path, mounts))
      case CallUnmount(d) =>
        (match OsUnmount(w, d)
         case Some(later) =>
           if turn.Goes? then (later, UnmountEnded(Unmounted)) else (w, UnmountEnded(UnmountRefused(Internal)))
         case None => (w, UnmountEnded(UnmountRefused(Internal))))
  }

  /** Which of a request's system calls fail: reading the table, (un)mounting, changing the owner. */
  datatype Faults = Faults(table: bool, call: bool, chown: bool)

  function TurnOf(fails: bool): Turn {
    if fails then Fails else Goes
  }

  /** A whole mount request with nothing interleaved. */
  function MountAlone(cfg: Config, w: World, req: MountRequest, faults: Faults): (World, MountEnd) {
    var (w1, s1) := StepMount(cfg, w, req, ReadTable, TurnOf(faults.table));
    var (w2, s2) := StepMount(cfg, w1, req, s1, Goes);
    var (w3, s3) := StepMount(cfg, w2, req, s2, TurnOf(faults.call));
    var (w4, s4) := StepMount(cfg, w3, req, s3, TurnOf(faults.chown));
    (w4, s4.end)
  }

  /** A whole unmount request with nothing interleaved. */
  function UnmountAlone(cfg: Config, w: World, path: Option<Path>, faults: Faults): (World, UnmountEnd) {
    var (w1, s1) := StepUnmount(cfg, w, path, ReadTableU, TurnOf(faults.table));
    var (w2, s2) := StepUnmount(cfg, w1, path, s1, Goes);
    var (w3, s3) := StepUnmount(cfg, w2, path, s2, TurnOf(faults.call));
    (w3, s3.end)
  }

  class Host {
    var world: World

    constructor (world: World)
      ensures this.world == world
    {
      this.world := world;
    }
  }

  /** The daemon's handlers as the source writes them. */
  class MountdServer {
    const config: Config
    const host: Host

    constructor (config: Config, host: Host)
      ensures this.config == config && this.host == host
    {
      this.config := config;
      this.host := host;
    }

    method Mount(req: MountRequest, faults: Faults) returns (reply: Result<()>)
      modifies host
      ensures var (w, end) := MountAlone(config, old(host.world), req, faults);
        host.world == w && reply == MountReply(end)
    {
      // The snapshot comes before every check.
      if faults.table {
        return Err(Internal);
      }
      var mounts := Mounted(host.world.table);

      // An empty path reads as no path.
      if req.mount.None? {
        return Err(InvalidArgument);
      }
      var mount := req.mount.value;
      if mount.src.None? || mount.dst.None? {
        return Err(InvalidArgument);
      }
      var src, dst := mount.src.value, mount.dst.value;

      // Only the destination is held to the read-only test.
      if !Interactable(config, host.world, src, false) {
        return Err(PermissionDenied);
      }
      if !Interactable(config, host.world, dst, READ_ONLY in req.flags) {
        return Err(PermissionDenied);
      }
      if !IsDir(host.world, dst) {
        return Err(FailedPrecondition);
      }

      // Decided by the snapshot, whatever is mounted there.
      if dst in mounts {
        return Ok(());
      }

      // One undecodable flag refuses the request.
      var mapped := CollectFlags(req.flags);
      if mapped.None? {
        return Err(InvalidArgument);
      }
      var flags := mapped.value;
      flags := flags + {NODEV, NOSUID};

      var result := OsMount(host.world, src, dst, flags);
      if faults.call || result.None? {
        return Err(Internal);
      }
      host.world := result.value;

      // The destination now names the root of the new mount; a failure leaves that mount in place.
      var owned := OsChown(host.world, dst, config.owner);
      if faults.chown || owned.None? {
        return Err(Internal);
      }
      host.world := owned.value;
      return Ok(());
    }

    method Unmount(path: Option<Path>, faults: Faults) returns (reply: Result<()>)
      modifies host
      ensures var (w, end) := UnmountAlone(config, old(host.world), path, faults);
        host.world == w && reply == UnmountReply(end)
    {
      if faults.table {
        return Err(Internal);
      }
      var mounts := Mounted(host.world.table);

      if path.None? {
        return Err(InvalidArgument);
      }
      var mountpoint := path.value;

      // Again by the snapshot, and before the guard.
      if mountpoint !in mounts {
        return Ok(());
      }

      if !Interactable(config, host.world, mountpoint, false) {
        return Err(PermissionDenied);
      }

      var result := OsUnmount(host.world, mountpoint);
      if faults.call || result.None? {
        return Err(Internal);
      }
      host.world := result.value;
      return Ok(());
    }
  }
}
