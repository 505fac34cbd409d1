/** Runs that show the mount and lifecycle hypotheses are needed. */
module MountWitnesses {
  import opened Status
  import opened MountTable
  import opened Mountd
  import opened MountRefinement
  import MI = MountInterleaving
  import opened Node
  import opened Lifecycle

  const ROOT := Owner(0, 0)
  const USER := Owner(1000, 100)

  /** A daemon that may interact with every path. */
  const OPEN_CONFIG := Config(USER, (p: Path) => true)

  const CALM := Faults(false, false, false)
  const NO_FAULTS := NodeFaults(None, false, CALM, false, false)
  const READ_WRITE: Capability := Some(Some(1))

  /** The host after an entry has been added on `dst` and its root handed to the configured pair. */
  function WithMount(w: World, root: Inode, dst: Path, flags: set<KernelFlag>): World
    requires root in w.inodes
  {
    World(w.table + [Entry(root, dst, flags + {NODEV, NOSUID})], w.inodes[root := w.inodes[root].(owner := USER)])
  }

  /** What a path names right after something has been mounted on it. */
  lemma WithMountNames(w: World, root: Inode, dst: Path, flags: set<KernelFlag>)
    requires root in w.inodes
    ensures var later := WithMount(w, root, dst, flags);
      && Resolve(later.table, dst) == root && Mounted(later.table) == Mounted(w.table) + {dst}
      && (forall p :: Resolve(later.table, p) == if dst <= p then Below(root, p[|dst|..]) else Resolve(w.table, p))
  {
    TableAppend(w.table, Entry(root, dst, flags + {NODEV, NOSUID}));
    BelowSelf(root);
    assert dst[|dst|..] == [];
  }

  function DeviceMount(device: Path, dst: Path): MountRequest {
    MountRequest(Some(MountPair(Some(device), Some(dst))), [])
  }

  function BindMount(src: Path, dst: Path): MountRequest {
    MountRequest(Some(MountPair(Some(src), Some(dst))), [BIND_FLAG])
  }

  /** A formatted block device on the host. */
  predicate Formatted(w: World, device: Path) {
    Exists(w, device) && OnDevice(device, []) in w.inodes && w.inodes[OnDevice(device, [])].isDir
  }

  /** A directory with every directory above it. */
  ghost predicate IsDirAllTheWay(w: World, p: Path) {
    forall k :: 0 <= k <= |p| ==> IsDir(w, p[..k])
  }

  /** Without faults, a daemon open to every path mounts a formatted device on an unmounted directory. */
  lemma MountGoes(w: World, device: Path, dst: Path)
    requires Formatted(w, device) && IsDir(w, dst) && dst !in Mounted(w.table)
    ensures MountAlone(OPEN_CONFIG, w, DeviceMount(device, dst), CALM)
         == (WithMount(w, OnDevice(device, []), dst, {}), NewlyMounted)
  {
    assert CollectFlags([]) == Some({});
    WithMountNames(w, OnDevice(device, []), dst, {});
  }

  /** The same for a bind of an existing directory. */
  lemma BindGoes(w: World, src: Path, dst: Path)
    requires IsDir(w, src) && IsDir(w, dst) && dst !in Mounted(w.table)
    ensures MountAlone(OPEN_CONFIG, w, BindMount(src, dst), CALM)
         == (WithMount(w, Resolve(w.table, src), dst, {BIND}), NewlyMounted)
  {
    assert [BIND_FLAG][1..] == [];
    assert CollectFlags([]) == Some({});
    assert {BIND} + {} == {BIND};
    assert CollectFlags([BIND_FLAG]) == Some({BIND});
    WithMountNames(w, Resolve(w.table, src), dst, {BIND});
  }

  /** A mounted path that passes the guard shorts out, whatever is mounted there. */
  lemma MountShortsOut(w: World, req: MountRequest)
    requires req.mount.Some? && req.mount.value.src.Some? && req.mount.value.dst.Some? && READ_ONLY !in req.flags
    requires Exists(w, req.mount.value.src.value) && IsDir(w, req.mount.value.dst.value)
    requires req.mount.value.dst.value in Mounted(w.table)
    ensures MountAlone(OPEN_CONFIG, w, req, CALM) == (w, AlreadyMounted)
  {
  }

  /** Directories that exist are not made again. */
  lemma {:induction false} DirsExist(w: World, p: Path, owner: Owner)
    requires IsDirAllTheWay(w, p)
    ensures MakeDirs(w, p, owner) == Some(w)
  {
    assert p[..|p|] == p;
    if p != [] {
      var front := p[..|p| - 1];
      forall k | 0 <= k <= |front| ensures IsDir(w, front[..k]) {
        assert front[..k] == p[..k];
      }
      DirsExist(w, front, owner);
    }
  }

  /** A read-write stage and publish, without faults, through a daemon open to every path. */
  function PlainStage(ne: NodeEnv, w: World, volume: string, sp: Path): (World, Result<()>) {
    Stage(ne, OPEN_CONFIG, w, StageRequest(volume, Some(sp), READ_WRITE), NO_FAULTS)
  }

  function PlainPublish(ne: NodeEnv, w: World, volume: string, sp: Path, target: Path): (World, Result<()>) {
    Publish(ne, OPEN_CONFIG, w, PublishRequest(volume, Some(sp), Some(target), READ_WRITE), NO_FAULTS)
  }

  /** Staging an unmounted directory, without faults, mounts the volume's device there. */
  lemma StageGoes(ne: NodeEnv, w: World, volume: string, sp: Path)
    requires volume in ne.device && volume != "" && Formatted(w, ne.device[volume])
    requires IsDir(w, sp) && sp !in Mounted(w.table)
    ensures PlainStage(ne, w, volume, sp)
         == (WithMount(w, OnDevice(ne.device[volume], []), sp, {}), Ok(()))
  {
    MountGoes(w, ne.device[volume], sp);
  }

  /** Publishing onto an unmounted directory, without faults, binds whatever the staging path names. */
  lemma PublishGoes(ne: NodeEnv, w: World, volume: string, sp: Path, target: Path)
    requires volume in ne.device && volume != "" && IsDir(w, sp)
    requires target !in Mounted(w.table) && IsDirAllTheWay(w, target)
    ensures PlainPublish(ne, w, volume, sp, target)
         == (WithMount(w, Resolve(w.table, sp), target, {BIND}), Ok(()))
  {
    DirsExist(w, target, ne.self);
    assert target[..|target|] == target;
    BindGoes(w, sp, target);
    assert [BIND_FLAG] + [] == [BIND_FLAG];
  }

  /**
   * Stage before publish is needed: on a host where the staging path is a directory on which nothing is
   * mounted, a publish is answered OK and binds the target to that directory of the host, because the path
   * has to exist but not to be staged.
   */
  lemma PublishNeedsStage(ne: NodeEnv, w: World, volume: string, sp: Path, target: Path)
    requires volume in ne.device && volume != "" && IsDir(w, sp)
    requires target !in Mounted(w.table) && IsDirAllTheWay(w, target)
    requires Resolve(w.table, sp) == OnHost(sp)
    ensures var (later, reply) := PlainPublish(ne, w, volume, sp, target);
      reply == Ok(()) && Resolve(later.table, target) == OnHost(sp)
  {
    PublishGoes(ne, w, volume, sp, target);
    WithMountNames(w, Resolve(w.table, sp), target, {BIND});
  }

  /**
   * One volume per staging path is needed: staging volume `a` and then volume `b` on one path is answered OK
   * twice, and the path stays on `a`'s device.
   */
  lemma StagingPathsNeedOneVolume(ne: NodeEnv, w: World, a: string, b: string, sp: Path)
    requires a in ne.device && a != "" && b in ne.device && b != "" && IsDir(w, sp) && sp !in Mounted(w.table)
    requires Formatted(w, ne.device[a]) && Exists(w, ne.device[b]) && !(sp <= ne.device[b])
    ensures var (w1, r1) := PlainStage(ne, w, a, sp);
      var (w2, r2) := PlainStage(ne, w1, b, sp);
      r1 == r2 == Ok(()) && Resolve(w2.table, sp) == OnDevice(ne.device[a], [])
  {
    StageGoes(ne, w, a, sp);
    WithMountNames(w, OnDevice(ne.device[a], []), sp, {});
    PathsMustStartUnmounted(ne, WithMount(w, OnDevice(ne.device[a], []), sp, {}), b, sp);
    hide PlainStage;
  }

  /**
   * One volume per target is needed: publishing two volumes at one target is answered OK twice, and the
   * target stays on what the first one's staging path named.
   */
  lemma TargetsNeedOneVolume(ne: NodeEnv, w: World, a: string, spA: Path, b: string, spB: Path, target: Path)
    requires a in ne.device && a != "" && b in ne.device && b != "" && IsDir(w, spA) && IsDir(w, spB)
    requires target !in Mounted(w.table) && IsDirAllTheWay(w, target) && !(target <= spB)
    ensures var (w1, r1) := PlainPublish(ne, w, a, spA, target);
      var (w2, r2) := PlainPublish(ne, w1, b, spB, target);
      r1 == r2 == Ok(()) && Resolve(w2.table, target) == Resolve(w.table, spA)
  {
    PublishGoes(ne, w, a, spA, target);
    var w1 := WithMount(w, Resolve(w.table, spA), target, {BIND});
    WithMountNames(w, Resolve(w.table, spA), target, {BIND});
    DirsStay(w, Resolve(w.table, spA), target, {BIND}, target);
    DirsExist(w1, target, ne.self);
    assert [BIND_FLAG] + [] == [BIND_FLAG];
    MountShortsOut(w1, BindMount(spB, target));
  }

  /** Mounting a directory keeps the way down to a path that is not strictly below it. */
  lemma DirsStay(w: World, root: Inode, dst: Path, flags: set<KernelFlag>, p: Path)
    requires root in w.inodes && w.inodes[root].isDir && IsDirAllTheWay(w, p) && !(dst < p)
    ensures IsDirAllTheWay(WithMount(w, root, dst, flags), p)
  {
    WithMountNames(w, root, dst, flags);
    forall k | 0 <= k <= |p| ensures IsDir(WithMount(w, root, dst, flags), p[..k]) {
      assert IsDir(w, p[..k]);
      if dst <= p[..k] {
        assert dst == p[..k];
      }
    }
  }

  /**
   * Un-nested targets are needed: publishing `b` at a directory above `a`'s target is answered OK like the
   * first, and `a`'s target then names a place in what `b`'s staging path names.
   */
  lemma TargetsMustNotNest(ne: NodeEnv, w: World, a: string, spA: Path, inner: Path, b: string, spB: Path, outer: Path)
    requires a in ne.device && a != "" && b in ne.device && b != "" && IsDir(w, spA) && IsDir(w, spB) && !(inner <= spB)
    requires outer < inner && inner !in Mounted(w.table) && outer !in Mounted(w.table)
    requires IsDirAllTheWay(w, inner) && IsDirAllTheWay(w, outer)
    ensures var (w1, r1) := PlainPublish(ne, w, a, spA, inner);
      var (w2, r2) := PlainPublish(ne, w1, b, spB, outer);
      && r1 == r2 == Ok(())
      && Resolve(w1.table, inner) == Resolve(w.table, spA)
      && Resolve(w2.table, inner) == Below(Resolve(w.table, spB), inner[|outer|..])
  {
    PublishGoes(ne, w, a, spA, inner);
    var w1 := WithMount(w, Resolve(w.table, spA), inner, {BIND});
    WithMountNames(w, Resolve(w.table, spA), inner, {BIND});
    DirsStay(w, Resolve(w.table, spA), inner, {BIND}, outer);
    PublishGoes(ne, w1, b, spB, outer);
    WithMountNames(w1, Resolve(w1.table, spB), outer, {BIND});
  }

  /**
   * Un-nested staging paths are needed: staging `b` at a directory above `a`'s staging path is answered OK
   * like the first, and `a`'s path then names a place on `b`'s device.
   */
  lemma StagingPathsMustNotNest(ne: NodeEnv, w: World, a: string, inner: Path, b: string, outer: Path)
    requires a in ne.device && a != "" && b in ne.device && b != "" && ne.device[a] != ne.device[b]
    requires Formatted(w, ne.device[a]) && Formatted(w, ne.device[b]) && !(inner <= ne.device[b])
    requires outer < inner && inner !in Mounted(w.table) && outer !in Mounted(w.table)
    requires IsDir(w, inner) && IsDir(w, outer)
    ensures var (w1, r1) := PlainStage(ne, w, a, inner);
      var (w2, r2) := PlainStage(ne, w1, b, outer);
      && r1 == r2 == Ok(())
      && Resolve(w1.table, inner) == OnDevice(ne.device[a], [])
      && Resolve(w2.table, inner) == OnDevice(ne.device[b], inner[|outer|..])
  {
    var root, other := OnDevice(ne.device[a], []), OnDevice(ne.device[b], []);
    StageGoes(ne, w, a, inner);
    WithMountNames(w, root, inner, {});
    var w1 := WithMount(w, root, inner, {});
    StageGoes(ne, w1, b, outer);
    WithMountNames(w1, other, outer, {});
    assert [] + inner[|outer|..] == inner[|outer|..];
  }

  /**
   * Paths that start out unmounted are needed: staging on a path where something is mounted already is
   * answered OK, adds nothing, and leaves the path on what it named.
   */
  lemma PathsMustStartUnmounted(ne: NodeEnv, w: World, volume: string, sp: Path)
    requires volume in ne.device && volume != "" && Exists(w, ne.device[volume]) && IsDir(w, sp)
    requires sp in Mounted(w.table)
    ensures PlainStage(ne, w, volume, sp) == (w, Ok(()))
  {
    MountShortsOut(w, DeviceMount(ne.device[volume], sp));
  }

  /** A run one event longer. */
  lemma Then(cfg: Config, s0: MI.State, events: seq<MI.Event>, s: MI.State, event: MI.Event)
    returns (longer: seq<MI.Event>, next: MI.State)
    requires s == MI.Run(cfg, s0, events)
    ensures next == MI.Apply(cfg, s, event) == MI.Run(cfg, s0, longer)
  {
    longer := events + [event];
    assert longer[..|longer| - 1] == events;
    next := MI.Apply(cfg, s, event);
  }

  /** The entry a mount system call adds to the table. */
  function EntryFor(table: seq<Entry>, src: Path, dst: Path, flags: set<KernelFlag>): Entry {
    Entry(if BIND in flags then Resolve(table, src) else OnDevice(src, []), dst, flags)
  }

  /**
   * Two overlapping mounts of one path stack, on every host where one would succeed: both snapshots precede
   * both mounts. The second entry is the first again unless it binds from a source at or below `dst`, which
   * by then names a place in the first; only if there is no directory does that mount fail. Then exactly, an
   * unmount of the path leaves it mounted, so a path unmounted with an OK reply is still mounted, and the set
   * refinement needs one mount request for a path at a time.
   */
  lemma OverlappingMountsStack(cfg: Config, w: World, req: MountRequest, src: Path, dst: Path, flags: set<KernelFlag>)
    returns (events: seq<MI.Event>, s: MI.State)
    requires CheckMount(cfg, w, req, Mounted(w.table)) == CallMount(src, dst, flags)
    requires OsMount(w, src, dst, flags).Some?
    ensures s == MI.Run(cfg, MI.State(w, []), events)
    ensures var first := EntryFor(w.table, src, dst, flags);
      var second := EntryFor(w.table + [first], src, dst, flags);
      && (BIND !in flags || !(dst <= src) ==> second == first && Directory(w, second.root))
      && At(s.world.table, dst) == [first] + (if Directory(w, second.root) then [second] else [])
      && (dst in Mounted(Pop(s.world.table, dst)) <==> Directory(w, second.root))
  {
    hide MI.Run, OsMount, Resolve, At, Mounted, Pop, OsChown, CheckMount, Directory;
    var s0 := MI.State(w, []);
    var poll0, poll1 := MI.Poll(0, Goes), MI.Poll(1, Goes);
    NotYetMounted(cfg, w, req, CallMount(src, dst, flags));
    events, s := BothReady(cfg, w, req, CallMount(src, dst, flags));
    var first := EntryFor(w.table, src, dst, flags);
    var second := EntryFor(w.table + [first], src, dst, flags);
    MountTwice(w, src, dst, flags);
    events, s := Then(cfg, s0, events, s, poll0);
    assert s == MI.State(w.(table := w.table + [first]),
                         [MI.MountCall(req, CallChown(dst)), MI.MountCall(req, CallMount(src, dst, flags))]);
    events, s := Then(cfg, s0, events, s, poll1);
    assert s.world.table == w.table + [first] + if Directory(w, second.root) then [second] else [];
  }

  /** The host once the newest mount at a path is gone. */
  function Without(w: World, d: Path): World {
    w.(table := Pop(w.table, d))
  }

  /** A mount and an unmount both get as far as their system call. */
  lemma BothChecked(cfg: Config, w: World, req: MountRequest, path: Path, ready: MountStage)
    returns (events: seq<MI.Event>, s: MI.State)
    requires CheckMount(cfg, w, req, Mounted(w.table)) == ready
    requires CheckUnmount(cfg, w, Some(path), Mounted(w.table)) == CallUnmount(path)
    ensures s == MI.Run(cfg, MI.State(w, []), events)
    ensures s == MI.State(w, [MI.MountCall(req, ready), MI.UnmountCall(Some(path), CallUnmount(path))])
  {
    assert MI.Run(cfg, MI.State(w, []), []) == MI.State(w, []);
    hide MI.Run, Mounted, CheckMount, CheckUnmount;
    var s0, poll0, poll1 := MI.State(w, []), MI.Poll(0, Goes), MI.Poll(1, Goes);
    events, s := Then(cfg, s0, [], s0, MI.NewMount(req));
    events, s := Then(cfg, s0, events, s, MI.NewUnmount(Some(path)));
    assert s == MI.State(w, [MI.MountCall(req, ReadTable), MI.UnmountCall(Some(path), ReadTableU)]);
    events, s := Then(cfg, s0, events, s, poll0);
    events, s := Then(cfg, s0, events, s, poll1);
    assert s == MI.State(w, [MI.MountCall(req, Check(Mounted(w.table))),
                             MI.UnmountCall(Some(path), CheckU(Mounted(w.table)))]);
    events, s := Then(cfg, s0, events, s, poll0);
    events, s := Then(cfg, s0, events, s, poll1);
  }

  /**
   * A staging path must stay mounted while a bind from it is running: on every host where a bind and an unmount
   * of its source would both go through, the source can be unmounted between the check and the bind, and the
   * target then shows what the source names without it.
   */
  lemma SourceMustStayMounted(cfg: Config, w: World, req: MountRequest, src: Path, dst: Path, flags: set<KernelFlag>)
    returns (events: seq<MI.Event>, s: MI.State)
    requires CheckMount(cfg, w, req, Mounted(w.table)) == CallMount(src, dst, flags) && BIND in flags
    requires CheckUnmount(cfg, w, Some(src), Mounted(w.table)) == CallUnmount(src)
    requires OsMount(Without(w, src), src, dst, flags).Some?
    ensures s == MI.Run(cfg, MI.State(w, []), events)
    ensures Resolve(s.world.table, dst) == Resolve(Pop(w.table, src), src)
  {
    SourceGoes(cfg, w, src, dst, flags);
    PushedNames(Pop(w.table, src), EntryFor(Pop(w.table, src), src, dst, flags));
    hide MI.Run, Mounted, CheckMount, CheckUnmount, OsMount, OsUnmount, OsChown, Pop, Resolve;
    var s0 := MI.State(w, []);
    events, s := BothChecked(cfg, w, req, src, CallMount(src, dst, flags));
    events, s := Then(cfg, s0, events, s, MI.Poll(1, Goes));
    assert s.world == Without(w, src) && s.calls[0] == MI.MountCall(req, CallMount(src, dst, flags));
    events, s := Then(cfg, s0, events, s, MI.Poll(0, Goes));
  }

  lemma SourceGoes(cfg: Config, w: World, src: Path, dst: Path, flags: set<KernelFlag>)
    requires CheckUnmount(cfg, w, Some(src), Mounted(w.table)) == CallUnmount(src) && BIND in flags
    requires OsMount(Without(w, src), src, dst, flags).Some?
    ensures OsUnmount(w, src) == Some(Without(w, src))
    ensures OsMount(Without(w, src), src, dst, flags)
         == Some(Without(w, src).(table := Pop(w.table, src) + [EntryFor(Pop(w.table, src), src, dst, flags)]))
  {
  }

  /** A request that gets as far as its mount found its path unmounted. */
  lemma NotYetMounted(cfg: Config, w: World, req: MountRequest, ready: MountStage)
    requires CheckMount(cfg, w, req, Mounted(w.table)) == ready && ready.CallMount?
    ensures At(w.table, ready.dst) == []
  {
    MountedIffAt(w.table, ready.dst);
  }

  /** Two like requests both get as far as one alone would before its mount system call. */
  lemma BothReady(cfg: Config, w: World, req: MountRequest, ready: MountStage)
    returns (events: seq<MI.Event>, s: MI.State)
    requires CheckMount(cfg, w, req, Mounted(w.table)) == ready
    ensures s == MI.Run(cfg, MI.State(w, []), events)
    ensures s == MI.State(w, [MI.MountCall(req, ready), MI.MountCall(req, ready)])
  {
    assert MI.Run(cfg, MI.State(w, []), []) == MI.State(w, []);
    hide MI.Run, Mounted, CheckMount;
    var s0 := MI.State(w, []);
    var poll0, poll1 := MI.Poll(0, Goes), MI.Poll(1, Goes);
    events, s := [], s0;
    events, s := Then(cfg, s0, events, s, MI.NewMount(req));
    events, s := Then(cfg, s0, events, s, MI.NewMount(req));
    assert s == MI.State(w, [MI.MountCall(req, ReadTable), MI.MountCall(req, ReadTable)]);
    events, s := Then(cfg, s0, events, s, poll0);
    events, s := Then(cfg, s0, events, s, poll1);
    assert s == MI.State(w, [MI.MountCall(req, Check(Mounted(w.table))), MI.MountCall(req, Check(Mounted(w.table)))]);
    events, s := Then(cfg, s0, events, s, poll0);
    events, s := Then(cfg, s0, events, s, poll1);
  }

  /** The mount system call itself does not mind a path that is already mounted. */
  lemma MountTwice(w: World, src: Path, dst: Path, flags: set<KernelFlag>)
    requires OsMount(w, src, dst, flags).Some? && At(w.table, dst) == []
    ensures var first := EntryFor(w.table, src, dst, flags);
      var second := EntryFor(w.table + [first], src, dst, flags);
      var once := w.(table := w.table + [first]);
      var extra := if Directory(w, second.root) then [second] else [];
      && OsMount(w, src, dst, flags) == Some(once)
      && OsMount(once, src, dst, flags)
           == (if Directory(w, second.root) then Some(w.(table := w.table + [first] + extra)) else None)
      && (BIND !in flags || !(dst <= src) ==> second == first && Directory(w, second.root))
      && At(w.table + [first] + extra, dst) == [first] + extra
      && (dst in Mounted(Pop(w.table + [first] + extra, dst)) <==> Directory(w, second.root))
  {
    var first := EntryFor(w.table, src, dst, flags);
    var second := EntryFor(w.table + [first], src, dst, flags);
    TableAppend(w.table, first);
    TableAppend(w.table + [first], second);
    BelowSelf(first.root);
    assert dst[|dst|..] == [];
    MountedIffAt(w.table, dst);
    assert (w.table + [first])[..|w.table|] == w.table;
    assert (w.table + [first] + [second])[..|w.table| + 1] == w.table + [first];
    assert w.table + [first] + [] == w.table + [first];
  }

  const DEV_A: Path := ["dev", "a"]
  const NODE_ENV := NodeEnv(map["A" := DEV_A], ROOT)

  /** A host with one formatted block device, two empty directories, and nothing mounted. */
  const HOST := World([], map[
    OnHost([]) := Meta(ROOT, true, false),
    OnHost(DEV_A) := Meta(ROOT, false, false), OnDevice(DEV_A, []) := Meta(ROOT, true, false),
    OnHost(["stage"]) := Meta(ROOT, true, false), OnHost(["t"]) := Meta(ROOT, true, false)])

  /** The families above are not empty: on a concrete host an unstaged publish and a stacking pair of mounts occur. */
  lemma ConcreteHost() returns (events: seq<MI.Event>)
    ensures var (later, reply) := PlainPublish(NODE_ENV, HOST, "A", ["stage"], ["t"]);
      reply == Ok(()) && Resolve(later.table, ["t"]) == OnHost(["stage"])
    ensures |At(MI.Run(OPEN_CONFIG, MI.State(HOST, []), events).world.table, ["stage"])| == 2
  {
    var t: Path := ["t"];
    forall k | 0 <= k <= |t| ensures IsDir(HOST, t[..k]) {
      assert t[..0] == [] && t[..1] == t;
    }
    PublishNeedsStage(NODE_ENV, HOST, "A", ["stage"], t);
    assert CollectFlags([]) == Some({});
    var s;
    events, s := OverlappingMountsStack(OPEN_CONFIG, HOST, DeviceMount(DEV_A, ["stage"]), DEV_A, ["stage"],
                                        {} + {NODEV, NOSUID});
  }
}
