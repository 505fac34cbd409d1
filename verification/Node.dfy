/** The node service: stage, publish, unpublish and unstage, composed over the mount daemon. */
module Node {
  import opened Status
  import opened MachineInts
  import opened MountTable
  import opened Mountd

  const SINGLE_NODE_READER_ONLY: i32 := 2

  /** Where LVM has each volume's block device, and who owns the directories the node service creates. */
  datatype NodeEnv = NodeEnv(device: map<string, Path>, self: Owner)

  /** A volume capability, if given, with its access mode, if it names one. */
  type Capability = Option<Option<i32>>

  datatype StageRequest = StageRequest(volume: string, staging: Option<Path>, capability: Capability)
  datatype PublishRequest =
    PublishRequest(volume: string, staging: Option<Path>, target: Option<Path>, capability: Capability)
  datatype PathRequest = PathRequest(volume: string, path: Option<Path>)

  /**
   * What goes wrong during a node call: an error from the volume lookup, from creating the target path, from
   * mountd's system calls, the loss of mountd's answer, or a failing removal of the target path.
   */
  datatype NodeFaults = NodeFaults(lookup: Option<Code>, mkdir: bool, mountd: Faults, lost: bool, rmdir: bool)

  predicate ReadOnlyMode(capability: Capability) {
    capability.Some? && capability.value == Some(SINGLE_NODE_READER_ONLY)
  }

  /** `get_lvm_block_path`. */
  function BlockPath(ne: NodeEnv, volume: string, fault: Option<Code>): Result<Path> {
    if fault.Some? then Err(fault.value)
    else if volume in ne.device then Ok(ne.device[volume])
    else Err(NotFound)
  }

  /** `create_dir_all`: every missing directory down to `p`, unless something on the way is not a directory. */
  function MakeDirs(w: World, p: Path, owner: Owner): Option<World> {
    match (if p == [] then Some(w) else MakeDirs(w, p[..|p| - 1], owner))
    case None => None
    case Some(above) =>
      var node := Resolve(w.table, p);
      if node !in above.inodes then Some(above.(inodes := above.inodes[node := Meta(owner, true, false)]))
      else if above.inodes[node].isDir then Some(above)
      else None
  }

  predicate StrictlyBelow(node: Inode, dir: Inode) {
    match (node, dir)
    case (OnHost(p), OnHost(q)) => q < p
    case (OnDevice(d, p), OnDevice(e, q)) => d == e && q < p
    case _ => false
  }

  /** `remove_dir`, whose failure the caller ignores: an empty directory that is not a mount point goes. */
  function RemoveDir(w: World, p: Path, fails: bool): World {
    var node := Resolve(w.table, p);
    if fails || !IsDir(w, p) || p in Mounted(w.table) || exists n :: n in w.inodes.Keys && StrictlyBelow(n, node) then w
    else w.(inodes := w.inodes - {node})
  }

  function StageMount(req: StageRequest, device: Path): MountRequest {
    MountRequest(Some(MountPair(Some(device), req.staging)), if ReadOnlyMode(req.capability) then [READ_ONLY] else [])
  }

  function PublishMount(req: PublishRequest): MountRequest {
    MountRequest(Some(MountPair(req.staging, req.target)),
                 [BIND_FLAG] + if ReadOnlyMode(req.capability) then [READ_ONLY] else [])
  }

  function Answer(reply: Result<()>, lost: bool): Result<()> {
    if lost then Err(Unavailable) else reply
  }

  /** `node_stage_volume`. */
  function Stage(ne: NodeEnv, cfg: Config, w: World, req: StageRequest, f: NodeFaults): (World, Result<()>) {
    if req.volume == "" || req.staging.None? || req.capability.None? then (w, Err(InvalidArgument))
    else
      match BlockPath(ne, req.volume, f.lookup)
      case Err(code) => (w, Err(code))
      case Ok(device) =>
        if !Exists(w, device) || !Exists(w, req.staging.value) then (w, Err(FailedPrecondition))
        else
          var (later, end) := MountAlone(cfg, w, StageMount(req, device), f.mountd);
          (later, Answer(MountReply(end), f.lost))
  }

  /** `node_unstage_volume`. */
  function Unstage(ne: NodeEnv, cfg: Config, w: World, req: PathRequest, f: NodeFaults): (World, Result<()>) {
    if req.volume == "" || req.path.None? then (w, Err(InvalidArgument))
    else
      match BlockPath(ne, req.volume, f.lookup)
      case Err(code) => (w, Err(code))
      case Ok(device) =>
        if !Exists(w, device) then (w, Err(FailedPrecondition))
        else
          var (later, end) := UnmountAlone(cfg, w, req.path, f.mountd);
          (later, Answer(UnmountReply(end), f.lost))
  }

  /** The publish target created, or None when it cannot be; an empty target path is accepted here. */
  function TargetMade(ne: NodeEnv, w: World, target: Option<Path>, fails: bool): Option<World> {
    if fails then None
    else match target case None => Some(w) case Some(p) => MakeDirs(w, p, ne.self)
  }

  /** `node_publish_volume`: the staging path has to exist, not to be mounted. */
  function Publish(ne: NodeEnv, cfg: Config, w: World, req: PublishRequest, f: NodeFaults): (World, Result<()>) {
    if req.volume == "" || req.staging.None? || req.capability.None? then (w, Err(InvalidArgument))
    else
      match BlockPath(ne, req.volume, f.lookup)
      case Err(code) => (w, Err(code))
      case Ok(_) =>
        match TargetMade(ne, w, req.target, f.mkdir)
        case None => (w, Err(Internal))
        case Some(made) =>
          if !Exists(made, req.staging.value) then (made, Err(FailedPrecondition))
          else
            var (later, end) := MountAlone(cfg, made, PublishMount(req), f.mountd);
            (later, Answer(MountReply(end), f.lost))
  }

  /** `node_unpublish_volume`. */
  function Unpublish(ne: NodeEnv, cfg: Config, w: World, req: PathRequest, f: NodeFaults): (World, Result<()>) {
    if req.volume == "" || req.path.None? then (w, Err(InvalidArgument))
    else
      match BlockPath(ne, req.volume, f.lookup)
      case Err(code) => (w, Err(code))
      case Ok(_) =>
        var (later, end) := UnmountAlone(cfg, w, req.path, f.mountd);
        if Answer(UnmountReply(end), f.lost).Err? then (later, Answer(UnmountReply(end), f.lost))
        else (RemoveDir(later, req.path.value, f.rmdir), Ok(()))
  }

  /** The node service's handlers as the source writes them, calling the mount daemon's. */
  class RLVMNode {
    const env: NodeEnv
    const mountd: MountdServer
    const host: Host

    constructor (env: NodeEnv, mountd: MountdServer)
      ensures this.env == env && this.mountd == mountd && this.host == mountd.host
    {
      this.env := env;
      this.mountd := mountd;
      this.host := mountd.host;
    }

    method NodeStageVolume(req: StageRequest, f: NodeFaults) returns (reply: Result<()>)
      requires host == mountd.host
      modifies host
      ensures (host.world, reply) == Stage(env, mountd.config, old(host.world), req, f)
    {
      if req.volume == "" {
        return Err(InvalidArgument);
      }
      if req.staging.None? {
        return Err(InvalidArgument);
      }
      if req.capability.None? {
        return Err(InvalidArgument);
      }

      // Both ends have to exist before mountd is asked.
      var device := BlockPath(env, req.volume, f.lookup);
      if device.Err? {
        return Err(device.code);
      }
      var src, dst := device.value, req.staging.value;
      if !Exists(host.world, src) {
        return Err(FailedPrecondition);
      }
      if !Exists(host.world, dst) {
        return Err(FailedPrecondition);
      }

      var flags: seq<i32> := [];
      if ReadOnlyMode(req.capability) {
        flags := [READ_ONLY];
      }
      reply := mountd.Mount(MountRequest(Some(MountPair(Some(src), Some(dst))), flags), f.mountd);
      reply := Answer(reply, f.lost);
    }

    method NodeUnstageVolume(req: PathRequest, f: NodeFaults) returns (reply: Result<()>)
      requires host == mountd.host
      modifies host
      ensures (host.world, reply) == Unstage(env, mountd.config, old(host.world), req, f)
    {
      if req.volume == "" {
        return Err(InvalidArgument);
      }
      if req.path.None? {
        return Err(InvalidArgument);
      }
      var device := BlockPath(env, req.volume, f.lookup);
      if device.Err? {
        return Err(device.code);
      }
      if !Exists(host.world, device.value) {
        return Err(FailedPrecondition);
      }
      reply := mountd.Unmount(req.path, f.mountd);
      reply := Answer(reply, f.lost);
    }

    method NodePublishVolume(req: PublishRequest, f: NodeFaults) returns (reply: Result<()>)
      requires host == mountd.host
      modifies host
      ensures (host.world, reply) == Publish(env, mountd.config, old(host.world), req, f)
    {
      if req.volume == "" {
        return Err(InvalidArgument);
      }
      if req.staging.None? {
        return Err(InvalidArgument);
      }
      if req.capability.None? {
        return Err(InvalidArgument);
      }

      // The device is looked up only to refuse unknown volumes.
      var device := BlockPath(env, req.volume, f.lookup);
      if device.Err? {
        return Err(device.code);
      }

      // The target is made before the staging path is looked at.
      var made := TargetMade(env, host.world, req.target, f.mkdir);
      if made.None? {
        return Err(Internal);
      }
      host.world := made.value;

      // Existing is enough: the staging path need not be mounted.
      if !Exists(host.world, req.staging.value) {
        return Err(FailedPrecondition);
      }

      var flags := [BIND_FLAG];
      if ReadOnlyMode(req.capability) {
        flags := flags + [READ_ONLY];
      }
      assert PublishMount(req).flags == flags;
      reply := mountd.Mount(MountRequest(Some(MountPair(req.staging, req.target)), flags), f.mountd);
      reply := Answer(reply, f.lost);
    }

    method NodeUnpublishVolume(req: PathRequest, f: NodeFaults) returns (reply: Result<()>)
      requires host == mountd.host
      modifies host
      ensures (host.world, reply) == Unpublish(env, mountd.config, old(host.world), req, f)
    {
      if req.volume == "" {
        return Err(InvalidArgument);
      }
      if req.path.None? {
        return Err(InvalidArgument);
      }
      var device := BlockPath(env, req.volume, f.lookup);
      if device.Err? {
        return Err(device.code);
      }
      reply := mountd.Unmount(req.path, f.mountd);
      reply := Answer(reply, f.lost);
      if reply.Err? {
        return;
      }

      // Only after an OK unmount, and whether it works is not reported.
      host.world := RemoveDir(host.world, req.path.value, f.rmdir);
      return Ok(());
    }
  }
}
