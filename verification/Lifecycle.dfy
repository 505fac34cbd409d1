/**
 * What each node call does, exactly, and the part of the mount table that is the driver's own.
 */
module Lifecycle {
  import opened Status
  import opened MountTable
  import opened Mountd
  import opened MountRefinement
  import opened Node

  /** What a path is for. */
  datatype Role = StagingOf(volume: string) | TargetOf(volume: string)

  /**
   * The caller's side: which path serves which volume in which role, fixed over the run. Each path has one
   * role (so one volume), and no managed path lies at or below another.
   */
  type Plan = map<Path, Role>

  ghost predicate ValidPlan(ne: NodeEnv, plan: Plan, initial: seq<Entry>) {
    && (forall p :: p in plan ==> plan[p].volume in ne.device)
    && (forall p, q :: p in plan && q in plan && p <= q ==> p == q)
    && (forall p :: p in plan ==> p !in Mounted(initial))
  }

  /** The device a managed path is for. */
  function DeviceRoot(ne: NodeEnv, plan: Plan, p: Path): Inode
    requires p in plan && plan[p].volume in ne.device
  {
    OnDevice(ne.device[plan[p].volume], [])
  }

  /** How a node call changes the table: not at all, by one new entry on an unmounted path, or by one pop. */
  datatype Change = Same | Pushed(entry: Entry) | Popped(d: Path)

  predicate Changed(table: seq<Entry>, later: seq<Entry>, change: Change) {
    match change
    case Same => later == table
    case Pushed(entry) => entry.dst !in Mounted(table) && later == table + [entry]
    case Popped(d) => d in Mounted(table) && later == Pop(table, d)
  }

  /** Any mount request pushes at most one entry, its own, and if answered OK its path is mounted. */
  lemma MountChange(cfg: Config, w: World, req: MountRequest, faults: Faults) returns (change: Change)
    ensures var (later, end) := MountAlone(cfg, w, req, faults);
      && Changed(w.table, later.table, change) && !change.Popped?
      && (change.Pushed? ==>
            && req.mount.Some? && req.mount.value.src.Some? && Dst(req) == Some(change.entry.dst)
            && FlagsAsRequested(change.entry.flags, req.flags)
            && change.entry.root == (if 2 in req.flags then Resolve(w.table, req.mount.value.src.value)
                                     else OnDevice(req.mount.value.src.value, [])))
      && (MountReply(end).Ok? ==> Dst(req).Some? && Dst(req).value in Mounted(later.table))
  {
    MountAloneEffect(cfg, w, req, faults);
    hide MountAlone;
    var (later, end) := MountAlone(cfg, w, req, faults);
    if end == NewlyMounted || end == ChownFailed {
      change := Pushed(later.table[|w.table|]);
      TableAppend(w.table, change.entry);
    } else {
      change := Same;
    }
  }

  /**
   * Staging pushes at most one entry: the volume's own device, at the staging path, not a bind, and
   * read-only iff the mode is SINGLE_NODE_READER_ONLY; and if answered OK the path is mounted.
   */
  lemma StageEffect(ne: NodeEnv, cfg: Config, w: World, req: StageRequest, f: NodeFaults) returns (change: Change)
    ensures var (later, reply) := Stage(ne, cfg, w, req, f);
      && Changed(w.table, later.table, change)
      && (change.Pushed? ==>
            && req.volume in ne.device && req.staging == Some(change.entry.dst)
            && change.entry.root == OnDevice(ne.device[req.volume], [])
            && BIND !in change.entry.flags
            && (RDONLY in change.entry.flags <==> req.capability == Some(Some(2))))
      && !change.Popped?
      && (reply.Ok? ==> req.staging.Some? && req.staging.value in Mounted(later.table))
  {
    hide MountAlone;
    change := Same;
    var (later, reply) := Stage(ne, cfg, w, req, f);
    if later != w || reply.Ok? {
      change := MountChange(cfg, w, StageMount(req, ne.device[req.volume]), f.mountd);
    }
  }

  /**
   * When staging is answered OK: the arguments are there, the volume is known, its device and the staging
   * directory pass the guard, and either something is mounted there already or the device has a filesystem
   * and every system call goes through; and the answer is not lost.
   */
  lemma StageOkExactly(ne: NodeEnv, cfg: Config, w: World, req: StageRequest, f: NodeFaults)
    ensures Stage(ne, cfg, w, req, f).1.Ok? <==>
      && req.volume != "" && req.staging.Some? && req.capability.Some? && !f.lost
      && f.lookup.None? && req.volume in ne.device
      && var device, sp := ne.device[req.volume], req.staging.value;
         && !f.mountd.table && Permitted(cfg, w, device) && Permitted(cfg, w, sp)
         && !(req.capability == Some(Some(2)) && ReadOnlyFile(w, sp))
         && Directory(w, Resolve(w.table, sp))
         && (sp in Mounted(w.table)
             || (!f.mountd.call && !f.mountd.chown && Directory(w, OnDevice(device, []))))
  {
    hide MountAlone, Mounted, Resolve;
    if req.volume in ne.device && req.staging.Some? {
      var mount := StageMount(req, ne.device[req.volume]);
      assert Ends(mount, ne.device[req.volume], req.staging.value);
      MountAnswers(cfg, w, mount, f.mountd, ne.device[req.volume], req.staging.value);
    }
  }

  /** What the node service passes on of the daemon's answer. */
  ghost function PassedOn(served: (World, MountEnd), lost: bool): (World, Result<()>) {
    (served.0, if lost then Err(Unavailable) else MountReply(served.1))
  }

  /**
   * What staging comes to otherwise. It is refused, and the host stays as it was, if an argument is missing, if
   * the lookup fails or does not know the volume, or if the device or the staging path does not exist. Else it
   * is what the daemon makes of one request to mount the device there, read-only for SINGLE_NODE_READER_ONLY,
   * whose answer may be lost.
   */
  lemma StageAnswers(ne: NodeEnv, cfg: Config, w: World, req: StageRequest, f: NodeFaults)
    ensures var incomplete := req.volume == "" || req.staging.None? || req.capability.None?;
      var unknown := f.lookup.Some? || req.volume !in ne.device;
      var absent := !incomplete && !unknown && (Resolve(w.table, ne.device[req.volume]) !in w.inodes
                                                || Resolve(w.table, req.staging.value) !in w.inodes);
      && (incomplete ==> Stage(ne, cfg, w, req, f) == (w, Err(InvalidArgument)))
      && (!incomplete && unknown ==> Stage(ne, cfg, w, req, f) == (w, Err(f.lookup.GetOr(NotFound))))
      && (absent ==> Stage(ne, cfg, w, req, f) == (w, Err(FailedPrecondition)))
      && (!incomplete && !unknown && !absent ==>
            var mount := MountRequest(Some(MountPair(Some(ne.device[req.volume]), req.staging)),
                                      if req.capability == Some(Some(2)) then [1] else []);
            Stage(ne, cfg, w, req, f) == PassedOn(MountAlone(cfg, w, mount, f.mountd), f.lost))
  {
    hide MountAlone, Resolve;
  }

  /** Nothing on the way down to a path is a file. */
  ghost predicate WayDown(w: World, p: Path) {
    forall k :: 0 <= k <= |p| && Resolve(w.table, p[..k]) in w.inodes ==> w.inodes[Resolve(w.table, p[..k])].isDir
  }

  /** The file is what some prefix of the path names. */
  ghost predicate OnTheWay(w: World, p: Path, node: Inode) {
    exists k :: 0 <= k <= |p| && node == Resolve(w.table, p[..k])
  }

  /** The host with every missing directory on the way down to a path. */
  ghost predicate WithWayDown(w: World, p: Path, owner: Owner, made: World) {
    && made.table == w.table
    && (forall n :: n in made.inodes <==> n in w.inodes || OnTheWay(w, p, n))
    && (forall n :: n in made.inodes ==>
          made.inodes[n] == if n in w.inodes then w.inodes[n] else Meta(owner, true, false))
  }

  /** One directory further down. */
  lemma OneFurtherDown(w: World, p: Path)
    requires p != []
    ensures var front, node := p[..|p| - 1], Resolve(w.table, p);
      && (WayDown(w, p) <==> WayDown(w, front) && (node in w.inodes ==> w.inodes[node].isDir))
      && (forall n :: OnTheWay(w, p, n) <==> OnTheWay(w, front, n) || n == node)
  {
    hide Resolve;
    var front := p[..|p| - 1];
    assert p[..|p|] == p;
    forall k | 0 <= k <= |front| ensures front[..k] == p[..k] {
    }
    assert WayDown(w, p) ==> WayDown(w, front) by {
      forall k | 0 <= k <= |front| ensures Resolve(w.table, front[..k]) == Resolve(w.table, p[..k]) {
      }
    }
    forall n ensures OnTheWay(w, p, n) <==> OnTheWay(w, front, n) || n == Resolve(w.table, p) {
      if OnTheWay(w, front, n) {
        var k :| 0 <= k <= |front| && n == Resolve(w.table, front[..k]);
        assert n == Resolve(w.table, p[..k]);
      }
      if n == Resolve(w.table, p) {
        assert n == Resolve(w.table, p[..|p|]);
      }
    }
  }

  /**
   * What creating a directory with all above it does: it works exactly when nothing on the way down is a file.
   * Then every file that was there stays as it was, and exactly the missing ones on the way are added, as
   * writable directories of this owner.
   */
  lemma {:induction false} MakeDirsExactly(w: World, p: Path, owner: Owner)
    ensures MakeDirs(w, p, owner).Some? <==> WayDown(w, p)
    ensures WayDown(w, p) ==> WithWayDown(w, p, owner, MakeDirs(w, p, owner).value)
  {
    if p == [] {
      assert p[..0] == p;
      assert OnTheWay(w, p, Resolve(w.table, p)) by {
        assert Resolve(w.table, p) == Resolve(w.table, p[..0]);
      }
    } else {
      MakeDirsExactly(w, p[..|p| - 1], owner);
      OneFurtherDown(w, p);
      hide Resolve, WayDown, OnTheWay;
    }
  }

  /**
   * When publishing is answered OK: the arguments are there, the volume is known, and nothing on the way down
   * to the target is a file; and, on the host with the missing directories on that way made, the staging path
   * and the target pass the guard, the target is a directory, and either it is mounted already or every system
   * call goes through from a directory; and the answer is not lost. Nothing asks whether the staging path is
   * mounted.
   */
  lemma PublishOkExactly(ne: NodeEnv, cfg: Config, w: World, req: PublishRequest, f: NodeFaults)
    ensures Publish(ne, cfg, w, req, f).1.Ok? <==>
      && req.volume != "" && req.staging.Some? && req.target.Some? && req.capability.Some? && !f.lost
      && f.lookup.None? && req.volume in ne.device && !f.mkdir && WayDown(w, req.target.value)
      && exists made :: WithWayDown(w, req.target.value, ne.self, made)
           && var sp, target := req.staging.value, req.target.value;
              && !f.mountd.table && Permitted(cfg, made, sp) && Permitted(cfg, made, target)
              && !(req.capability == Some(Some(2)) && ReadOnlyFile(made, target))
              && Directory(made, Resolve(w.table, target))
              && (target in Mounted(w.table)
                  || (!f.mountd.call && !f.mountd.chown && Directory(made, Resolve(w.table, sp))))
  {
    hide MountAlone, MakeDirs, Mounted, Resolve;
    var mount := PublishMount(req);
    PublishFlags(req);
    if req.staging.Some? && req.target.Some? {
      var sp, target := req.staging.value, req.target.value;
      MakeDirsExactly(w, target, ne.self);
      if TargetMade(ne, w, req.target, f.mkdir).Some? {
        var made := MakeDirs(w, target, ne.self).value;
        assert Ends(mount, sp, target);
        MountAnswers(cfg, made, mount, f.mountd, sp, target);
        forall other | WithWayDown(w, target, ne.self, other) ensures other == made {
          OneWayDown(w, target, ne.self, made, other);
        }
      }
    } else if TargetMade(ne, w, req.target, f.mkdir).Some? && req.staging.Some? {
      EndsMissing(cfg, w, mount, f.mountd);
    }
  }

  lemma OneWayDown(w: World, p: Path, owner: Owner, a: World, b: World)
    requires WithWayDown(w, p, owner, a) && WithWayDown(w, p, owner, b)
    ensures a == b
  {
    hide Resolve;
    forall n ensures n in a.inodes <==> n in b.inodes {
    }
    assert a.inodes == b.inodes;
  }

  lemma PublishFlags(req: PublishRequest)
    ensures var flags := PublishMount(req).flags;
      && 2 in flags && (1 in flags <==> req.capability == Some(Some(2)))
      && forall flag :: flag in flags ==> 0 <= flag <= 2
  {
    assert PublishMount(req).flags[0] == 2;
  }

  /**
   * What publishing comes to otherwise. It is refused if an argument is missing, if the lookup fails or does not
   * know the volume, or if something on the way down to the target is a file; then the host stays as it was. On
   * the host with that way made it is refused if the staging path does not exist; else it is what the daemon
   * makes of one request to bind the staging path there, read-only for SINGLE_NODE_READER_ONLY. An empty target
   * is let through to the daemon.
   */
  lemma PublishAnswers(ne: NodeEnv, cfg: Config, w: World, req: PublishRequest, f: NodeFaults) returns (made: World)
    ensures var incomplete := req.volume == "" || req.staging.None? || req.capability.None?;
      var unknown := f.lookup.Some? || req.volume !in ne.device;
      var blocked := f.mkdir || (req.target.Some? && !WayDown(w, req.target.value));
      var mount := MountRequest(Some(MountPair(req.staging, req.target)),
                                if req.capability == Some(Some(2)) then [2, 1] else [2]);
      && (incomplete ==> Publish(ne, cfg, w, req, f) == (w, Err(InvalidArgument)))
      && (!incomplete && unknown ==> Publish(ne, cfg, w, req, f) == (w, Err(f.lookup.GetOr(NotFound))))
      && (!incomplete && !unknown && blocked ==> Publish(ne, cfg, w, req, f) == (w, Err(Internal)))
      && (!incomplete && !unknown && !blocked ==>
            && (if req.target.Some? then WithWayDown(w, req.target.value, ne.self, made) else made == w)
            && Publish(ne, cfg, w, req, f) ==
                 if Resolve(w.table, req.staging.value) !in made.inodes then (made, Err(FailedPrecondition))
                 else PassedOn(MountAlone(cfg, made, mount, f.mountd), f.lost))
  {
    made := w;
    if req.target.Some? {
      MakeDirsExactly(w, req.target.value, ne.self);
      if WayDown(w, req.target.value) {
        made := MakeDirs(w, req.target.value, ne.self).value;
      }
    }
    assert PublishMount(req).flags == if req.capability == Some(Some(2)) then [2, 1] else [2];
    hide MakeDirs, Resolve, WayDown, OnTheWay, MountAlone;
  }

  /**
   * Publishing pushes at most one entry: a bind of what the staging path names at that moment, at the
   * target, read-only iff the mode is SINGLE_NODE_READER_ONLY; and if answered OK the target is mounted.
   */
  lemma PublishEffect(ne: NodeEnv, cfg: Config, w: World, req: PublishRequest, f: NodeFaults) returns (change: Change)
    ensures var (later, reply) := Publish(ne, cfg, w, req, f);
      && Changed(w.table, later.table, change)
      && (change.Pushed? ==>
            && req.staging.Some? && req.target == Some(change.entry.dst)
            && change.entry.root == Resolve(w.table, req.staging.value)
            && BIND in change.entry.flags
            && (RDONLY in change.entry.flags <==> req.capability == Some(Some(2))))
      && !change.Popped?
      && (reply.Ok? ==> req.target.Some? && req.target.value in Mounted(later.table))
  {
    hide MountAlone, MakeDirs;
    change := Same;
    var (later, reply) := Publish(ne, cfg, w, req, f);
    var made := TargetMade(ne, w, req.target, f.mkdir);
    if req.target.Some? {
      MakeDirsKeepsTable(w, req.target.value, ne.self);
    }
    if req.volume != "" && req.staging.Some? && req.capability.Some? && BlockPath(ne, req.volume, f.lookup).Ok?
      && made.Some? && Exists(made.value, req.staging.value) {
      var mount := PublishMount(req);
      PublishFlags(req);
      change := MountChange(cfg, made.value, mount, f.mountd);
    }
  }

  lemma MakeDirsKeepsTable(w: World, p: Path, owner: Owner)
    ensures MakeDirs(w, p, owner).Some? ==> MakeDirs(w, p, owner).value.table == w.table
  {
    MakeDirsExactly(w, p, owner);
  }

  /**
   * What an OK stage means: the staging path names what it named before if something was mounted there, and
   * the volume's own device otherwise. So it names that device exactly when it was not mounted, or was
   * mounted from that device.
   */
  lemma StageOkNames(ne: NodeEnv, cfg: Config, w: World, req: StageRequest, f: NodeFaults)
    requires Stage(ne, cfg, w, req, f).1.Ok?
    ensures req.staging.Some? && req.volume in ne.device
    ensures var later, sp, own := Stage(ne, cfg, w, req, f).0, req.staging.value, OnDevice(ne.device[req.volume], []);
      && Resolve(later.table, sp) == (if sp in Mounted(w.table) then Resolve(w.table, sp) else own)
      && (Resolve(later.table, sp) == own <==> sp !in Mounted(w.table) || Resolve(w.table, sp) == own)
  {
    StageOkExactly(ne, cfg, w, req, f);
    var change := StageEffect(ne, cfg, w, req, f);
    hide Stage;
    if change.Pushed? {
      PushedNames(w.table, change.entry);
    }
  }

  /**
   * What an OK publish means: the target names what it named before if something was mounted there, and
   * what the staging path named otherwise, mounted or not. So it names a given file, the volume's device
   * among them, exactly when that path did.
   */
  lemma PublishOkNames(ne: NodeEnv, cfg: Config, w: World, req: PublishRequest, f: NodeFaults, node: Inode)
    requires Publish(ne, cfg, w, req, f).1.Ok?
    ensures req.staging.Some? && req.target.Some?
    ensures var later, target := Publish(ne, cfg, w, req, f).0, req.target.value;
      Resolve(later.table, target) == node <==>
        Resolve(w.table, if target in Mounted(w.table) then target else req.staging.value) == node
  {
    PublishOkExactly(ne, cfg, w, req, f);
    var change := PublishEffect(ne, cfg, w, req, f);
    hide Publish;
    if change.Pushed? {
      PushedNames(w.table, change.entry);
    }
  }

  /**
   * When an OK publish leaves another path alone, exactly: the target was mounted already, or is not at or
   * above that path, or shows there what the path named.
   */
  lemma PublishKeepsExactly(ne: NodeEnv, cfg: Config, w: World, req: PublishRequest, f: NodeFaults, p: Path)
    requires Publish(ne, cfg, w, req, f).1.Ok?
    ensures req.staging.Some? && req.target.Some?
    ensures var later, q := Publish(ne, cfg, w, req, f).0, req.target.value;
      Resolve(later.table, p) == Resolve(w.table, p) <==>
        || q in Mounted(w.table) || !(q <= p)
        || Below(Resolve(w.table, req.staging.value), p[|q|..]) == Resolve(w.table, p)
  {
    PublishOkExactly(ne, cfg, w, req, f);
    var change := PublishEffect(ne, cfg, w, req, f);
    hide Publish;
    if change.Pushed? {
      TableAppend(w.table, change.entry);
    }
  }

  /** The same for an OK stage. */
  lemma StageKeepsExactly(ne: NodeEnv, cfg: Config, w: World, req: StageRequest, f: NodeFaults, p: Path)
    requires Stage(ne, cfg, w, req, f).1.Ok?
    ensures req.staging.Some? && req.volume in ne.device
    ensures var later, q := Stage(ne, cfg, w, req, f).0, req.staging.value;
      Resolve(later.table, p) == Resolve(w.table, p) <==>
        || q in Mounted(w.table) || !(q <= p)
        || OnDevice(ne.device[req.volume], p[|q|..]) == Resolve(w.table, p)
  {
    StageOkExactly(ne, cfg, w, req, f);
    var change := StageEffect(ne, cfg, w, req, f);
    hide Stage;
    if change.Pushed? {
      TableAppend(w.table, change.entry);
      if change.entry.dst <= p {
        assert Below(change.entry.root, p[|change.entry.dst|..])
            == OnDevice(ne.device[req.volume], [] + p[|change.entry.dst|..]);
        assert [] + p[|change.entry.dst|..] == p[|change.entry.dst|..];
      }
    }
  }

  /** What a path names once an entry has been added on it. */
  lemma PushedNames(table: seq<Entry>, entry: Entry)
    ensures Resolve(table + [entry], entry.dst) == entry.root
  {
    TableAppend(table, entry);
    BelowSelf(entry.root);
    assert entry.dst[|entry.dst|..] == [];
  }

  /**
   * What unstaging does, exactly. The daemon is asked when the arguments are there, the volume is known and its
   * device exists; then the newest entry of a mounted path is taken if the path passes the guard and the system
   * calls go through, even when the answer is lost. In every other case nothing changes.
   */
  lemma UnstageEffect(ne: NodeEnv, cfg: Config, w: World, req: PathRequest, f: NodeFaults) returns (change: Change)
    ensures var later := Unstage(ne, cfg, w, req, f).0;
      && Changed(w.table, later.table, change) && later.inodes == w.inodes && !change.Pushed?
      && (change.Popped? ==> req.path == Some(change.d))
      && (change.Popped? <==>
            && req.volume != "" && req.path.Some? && f.lookup.None? && req.volume in ne.device
            && Resolve(w.table, ne.device[req.volume]) in w.inodes
            && req.path.value in Mounted(w.table) && Permitted(cfg, w, req.path.value)
            && !f.mountd.table && !f.mountd.call)
  {
    change := UnmountChange(cfg, w, req.path, f.mountd);
    hide UnmountAlone;
    if !(&& req.volume != "" && req.path.Some? && f.lookup.None? && req.volume in ne.device
         && Resolve(w.table, ne.device[req.volume]) in w.inodes) {
      change := Same;
    }
  }

  /** An unmount request pops its path when that is mounted and permitted and the system calls go through. */
  lemma UnmountChange(cfg: Config, w: World, path: Option<Path>, faults: Faults) returns (change: Change)
    ensures var (later, end) := UnmountAlone(cfg, w, path, faults);
      && Changed(w.table, later.table, change) && later.inodes == w.inodes && !change.Pushed?
      && (change.Popped? ==> path == Some(change.d))
      && (change.Popped? <==>
            && path.Some? && path.value in Mounted(w.table) && Permitted(cfg, w, path.value)
            && !faults.table && !faults.call)
  {
    UnmountAloneEffect(cfg, w, path, faults);
    UnmountOkExactly(cfg, w, path, faults);
    hide UnmountAlone;
    change := if UnmountAlone(cfg, w, path, faults).1 == Unmounted then Popped(path.value) else Same;
  }

  /**
   * When unstaging is answered OK: the arguments are there, the volume is known, its device exists, and either
   * nothing is mounted at the path or it passes the guard and the system call goes through; the table could be
   * read, and the answer is not lost. Then the stack of mounts at the path is one lower, or was empty, and no
   * other path's has changed.
   */
  lemma UnstageOkExactly(ne: NodeEnv, cfg: Config, w: World, req: PathRequest, f: NodeFaults)
    ensures Unstage(ne, cfg, w, req, f).1.Ok? <==>
      && req.volume != "" && req.path.Some? && f.lookup.None? && req.volume in ne.device
      && Resolve(w.table, ne.device[req.volume]) in w.inodes && !f.mountd.table && !f.lost
      && (req.path.value in Mounted(w.table) ==> Permitted(cfg, w, req.path.value) && !f.mountd.call)
    ensures Unstage(ne, cfg, w, req, f).1.Ok? ==>
      OneLower(w.table, Unstage(ne, cfg, w, req, f).0.table, req.path.value)
  {
    UnmountOkExactly(cfg, w, req.path, f.mountd);
    var change := UnstageEffect(ne, cfg, w, req, f);
    hide UnmountAlone, Resolve, Mounted;
    if Unstage(ne, cfg, w, req, f).1.Ok? {
      PoppedOneLower(w.table, Unstage(ne, cfg, w, req, f).0.table, change, req.path.value);
    }
  }

  /** The newest mount at the path is gone, if there was one, and every other path has its mounts. */
  ghost predicate OneLower(table: seq<Entry>, later: seq<Entry>, p: Path) {
    && At(later, p) == (if At(table, p) == [] then [] else At(table, p)[..|At(table, p)| - 1])
    && forall x :: x != p ==> At(later, x) == At(table, x)
  }

  lemma PoppedOneLower(table: seq<Entry>, later: seq<Entry>, change: Change, p: Path)
    requires Changed(table, later, change) && change == if p in Mounted(table) then Popped(p) else Same
    ensures OneLower(table, later, p)
  {
    MountedIffAt(table, p);
    if p in Mounted(table) {
      forall x ensures At(later, x) == if x == p then At(table, p)[..|At(table, p)| - 1] else At(table, x) {
        PopAt(table, p, x);
      }
    }
  }

  /**
   * What unstaging comes to otherwise: why it is refused before the daemon is asked, and that the host stays as
   * it was; then what the daemon's refusals are, and that a lost answer reads as Unavailable.
   */
  lemma UnstageAnswers(ne: NodeEnv, cfg: Config, w: World, req: PathRequest, f: NodeFaults)
    ensures var incomplete := req.volume == "" || req.path.None?;
      var unknown := f.lookup.Some? || req.volume !in ne.device;
      var gone := !incomplete && !unknown && Resolve(w.table, ne.device[req.volume]) !in w.inodes;
      && (incomplete ==> Unstage(ne, cfg, w, req, f) == (w, Err(InvalidArgument)))
      && (!incomplete && unknown ==> Unstage(ne, cfg, w, req, f) == (w, Err(f.lookup.GetOr(NotFound))))
      && (gone ==> Unstage(ne, cfg, w, req, f) == (w, Err(FailedPrecondition)))
      && (!incomplete && !unknown && !gone ==>
            Unstage(ne, cfg, w, req, f).1 == DaemonRefusal(cfg, w, req.path.value, f))
  {
    UnmountOkExactly(cfg, w, req.path, f.mountd);
    hide UnmountAlone, Mounted, Resolve;
  }

  /** What the daemon's answer to an unmount comes to at the node service. */
  ghost function DaemonRefusal(cfg: Config, w: World, p: Path, f: NodeFaults): Result<()> {
    if f.lost then Err(Unavailable)
    else if f.mountd.table then Err(Internal)
    else if p in Mounted(w.table) && !Permitted(cfg, w, p) then Err(PermissionDenied)
    else if p in Mounted(w.table) && f.mountd.call then Err(Internal)
    else Ok(())
  }

  /** What unpublishing does to the table, exactly: as unstaging, but the device is not looked at. */
  lemma UnpublishEffect(ne: NodeEnv, cfg: Config, w: World, req: PathRequest, f: NodeFaults) returns (change: Change)
    ensures var later := Unpublish(ne, cfg, w, req, f).0;
      && Changed(w.table, later.table, change) && !change.Pushed?
      && (change.Popped? ==> req.path == Some(change.d))
      && (change.Popped? <==>
            && req.volume != "" && req.path.Some? && f.lookup.None? && req.volume in ne.device
            && req.path.value in Mounted(w.table) && Permitted(cfg, w, req.path.value)
            && !f.mountd.table && !f.mountd.call)
  {
    change := UnmountChange(cfg, w, req.path, f.mountd);
    hide UnmountAlone;
    if !(req.volume != "" && req.path.Some? && f.lookup.None? && req.volume in ne.device) {
      change := Same;
    }
  }

  /**
   * When unpublishing is answered OK: as for unstaging, without a look at the device. Then the stack of mounts
   * at the target is one lower, or was empty, and no other path's has changed.
   */
  lemma UnpublishOkExactly(ne: NodeEnv, cfg: Config, w: World, req: PathRequest, f: NodeFaults)
    ensures Unpublish(ne, cfg, w, req, f).1.Ok? <==>
      && req.volume != "" && req.path.Some? && f.lookup.None? && req.volume in ne.device
      && !f.mountd.table && !f.lost
      && (req.path.value in Mounted(w.table) ==> Permitted(cfg, w, req.path.value) && !f.mountd.call)
    ensures Unpublish(ne, cfg, w, req, f).1.Ok? ==>
      OneLower(w.table, Unpublish(ne, cfg, w, req, f).0.table, req.path.value)
  {
    UnmountOkExactly(cfg, w, req.path, f.mountd);
    var change := UnpublishEffect(ne, cfg, w, req, f);
    hide UnmountAlone, Resolve, Mounted, RemoveDir;
    if Unpublish(ne, cfg, w, req, f).1.Ok? {
      PoppedOneLower(w.table, Unpublish(ne, cfg, w, req, f).0.table, change, req.path.value);
    }
  }

  /**
   * Which files unpublishing removes: after an OK reply, the one the target then names, exactly when it is an
   * empty directory that is not a mount point and the removal works; otherwise, and without an OK reply, none.
   */
  lemma UnpublishRemoves(ne: NodeEnv, cfg: Config, w: World, req: PathRequest, f: NodeFaults)
    ensures var (later, reply) := Unpublish(ne, cfg, w, req, f);
      && (forall n :: n in later.inodes ==> n in w.inodes && later.inodes[n] == w.inodes[n])
      && (forall n :: n in w.inodes && n !in later.inodes <==>
            && reply.Ok? && req.path.Some? && n == Resolve(later.table, req.path.value) && n in w.inodes
            && w.inodes[n].isDir && req.path.value !in Mounted(later.table) && !f.rmdir
            && !exists m :: m in w.inodes && Inside(m, n))
  {
    var change := UnmountChange(cfg, w, req.path, f.mountd);
    hide UnmountAlone, Mounted, Resolve;
    forall m, n ensures StrictlyBelow(m, n) <==> Inside(m, n) {
      InsideExactly(m, n);
    }
    hide StrictlyBelow, Inside;
  }

  /** The file lies in the directory, at any depth. */
  ghost predicate Inside(file: Inode, dir: Inode) {
    exists rest: Path :: rest != [] && file == Below(dir, rest)
  }

  lemma InsideExactly(m: Inode, n: Inode)
    ensures StrictlyBelow(m, n) <==> Inside(m, n)
  {
    match (m, n) {
      case (OnHost(p), OnHost(q)) =>
        if q < p {
          assert p == q + p[|q|..] && m == Below(n, p[|q|..]);
        }
      case (OnDevice(_, p), OnDevice(_, q)) =>
        if q < p && m.device == n.device {
          assert p == q + p[|q|..] && m == Below(n, p[|q|..]);
        }
      case _ =>
    }
  }

  /** What unpublishing comes to otherwise. */
  lemma UnpublishAnswers(ne: NodeEnv, cfg: Config, w: World, req: PathRequest, f: NodeFaults)
    ensures var incomplete := req.volume == "" || req.path.None?;
      var unknown := f.lookup.Some? || req.volume !in ne.device;
      && (incomplete ==> Unpublish(ne, cfg, w, req, f) == (w, Err(InvalidArgument)))
      && (!incomplete && unknown ==> Unpublish(ne, cfg, w, req, f) == (w, Err(f.lookup.GetOr(NotFound))))
      && (!incomplete && !unknown ==> Unpublish(ne, cfg, w, req, f).1 == DaemonRefusal(cfg, w, req.path.value, f))
  {
    UnmountOkExactly(cfg, w, req.path, f.mountd);
    hide UnmountAlone, Mounted, Resolve, RemoveDir;
  }

  /** Every entry is a managed path mounted from its own volume's device. */
  ghost predicate OwnEntries(ne: NodeEnv, plan: Plan, own: seq<Entry>) {
    forall e :: e in own ==> e.dst in plan && plan[e.dst].volume in ne.device && e.root == DeviceRoot(ne, plan, e.dst)
  }

  lemma {:induction false} AtConcat(a: seq<Entry>, b: seq<Entry>, d: Path)
    ensures At(a + b, d) == At(a, d) + At(b, d)
  {
    if b == [] {
      assert a + b == a;
    } else {
      var front, last := b[..|b| - 1], b[|b| - 1];
      AtConcat(a, front, d);
      assert (a + b)[..|a + b| - 1] == a + front && (a + b)[|a + b| - 1] == last;
      var top := if last.dst == d then [last] else [];
      assert At(a, d) + At(front, d) + top == At(a, d) + (At(front, d) + top);
    }
  }

  /** A path unmounted at first is mounted exactly when the driver mounted it. */
  lemma MountedByOwn(initial: seq<Entry>, own: seq<Entry>, d: Path)
    requires d !in Mounted(initial)
    ensures d in Mounted(initial + own) <==> d in Mounted(own)
  {
    AtConcat(initial, own, d);
    MountedIffAt(initial, d);
    MountedIffAt(own, d);
    MountedIffAt(initial + own, d);
  }

  /** Popping a path the driver mounted leaves the initial part alone. */
  lemma {:induction false} PopConcat(a: seq<Entry>, b: seq<Entry>, d: Path)
    requires d in Mounted(b)
    ensures Pop(a + b, d) == a + Pop(b, d)
  {
    var front, last := b[..|b| - 1], b[|b| - 1];
    assert (a + b)[..|a + b| - 1] == a + front;
    if last.dst != d {
      PopConcat(a, front, d);
      assert a + Pop(front, d) + [last] == a + (Pop(front, d) + [last]);
    }
  }

  lemma {:induction false} MountedHasEntry(table: seq<Entry>, d: Path)
    ensures d in Mounted(table) <==> exists e :: e in table && e.dst == d
  {
    if table != [] {
      MountedHasEntry(table[..|table| - 1], d);
      assert table == table[..|table| - 1] + [table[|table| - 1]];
    }
  }

  /** A managed path the driver mounted names the root of its own volume's filesystem. */
  lemma {:induction false} OwnResolves(ne: NodeEnv, plan: Plan, initial: seq<Entry>, own: seq<Entry>, d: Path)
    requires ValidPlan(ne, plan, initial) && OwnEntries(ne, plan, own) && d in plan && d in Mounted(own)
    ensures Resolve(initial + own, d) == DeviceRoot(ne, plan, d)
  {
    var front, last := own[..|own| - 1], own[|own| - 1];
    assert (initial + own)[..|initial + own| - 1] == initial + front;
    assert last in own;
    if last.dst <= d {
      assert last.dst == d && d[|last.dst|..] == [];
    } else {
      OwnResolves(ne, plan, initial, front, d);
    }
  }

  /** What a change of the table does to the driver's own part of it. */
  lemma OwnAfter(ne: NodeEnv, plan: Plan, initial: seq<Entry>, own: seq<Entry>, later: seq<Entry>, change: Change)
    returns (next: seq<Entry>)
    requires ValidPlan(ne, plan, initial) && OwnEntries(ne, plan, own) && Unstacked(own)
    requires Changed(initial + own, later, change)
    requires change.Pushed? ==> change.entry.dst in plan && change.entry.root == DeviceRoot(ne, plan, change.entry.dst)
    requires change.Popped? ==> change.d in plan
    ensures later == initial + next && OwnEntries(ne, plan, next) && Unstacked(next)
    ensures Mounted(next) == match change
      case Same => Mounted(own)
      case Pushed(entry) => Mounted(own) + {entry.dst}
      case Popped(d) => Mounted(own) - {d}
  {
    match change
    case Same => next := own;
    case Pushed(entry) =>
      next := own + [entry];
      assert initial + own + [entry] == initial + next;
      TableAppend(own, entry);
      MountedByOwn(initial, own, entry.dst);
      MountedIffAt(own, entry.dst);
      forall x ensures |At(next, x)| <= 1 {
        assert |At(own, x)| <= 1;
      }
    case Popped(d) =>
      MountedByOwn(initial, own, d);
      PopConcat(initial, own, d);
      next := Pop(own, d);
      PopUnstacked(own, d);
      forall e | e in next ensures e in own {
        PopKeepsEntries(own, d, e);
      }
  }
}
