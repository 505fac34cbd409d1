/**
 * The volume lifecycle with the mount daemon's requests interleaved step by step. A node call sends the
 * daemon at most one request and otherwise only makes or removes directories, which are changes of files to
 * the interleaving machine: requests of different volumes overlap in any way while files change at any moment.
 */
module LifecycleInterleaving {
  import opened Status
  import opened MountTable
  import opened Mountd
  import opened MountRefinement
  import opened Node
  import opened Lifecycle
  import MI = MountInterleaving

  /** The path a request is about. */
  function PathOf(c: MI.Call): Option<Path> {
    match c
    case MountCall(req, _) => Dst(req)
    case UnmountCall(path, _) => path
  }

  /** The request has neither a reply nor been dropped. */
  predicate Busy(c: MI.Call) {
    match c
    case MountCall(_, stage) => !stage.MountEnded? && !stage.MountDropped?
    case UnmountCall(_, stage) => !stage.UnmountEnded? && !stage.UnmountDropped?
  }

  predicate AnsweredOk(c: MI.Call) {
    match c
    case MountCall(_, MountEnded(end)) => MountReply(end).Ok?
    case UnmountCall(_, UnmountEnded(end)) => UnmountReply(end).Ok?
    case _ => false
  }

  predicate Managed(plan: Plan, c: MI.Call) {
    PathOf(c).Some? && PathOf(c).value in plan
  }

  /** No request for the path is running. */
  ghost predicate Quiet(calls: seq<MI.Call>, p: Path) {
    forall i :: 0 <= i < |calls| && PathOf(calls[i]) == Some(p) ==> !Busy(calls[i])
  }

  /** A running bind of the path to somewhere else. */
  predicate BindsFrom(c: MI.Call, p: Path) {
    c.MountCall? && Busy(c) && BIND_FLAG in c.req.flags && c.req.mount.Some? && c.req.mount.value.src == Some(p)
  }

  /** No bind from the path is running. */
  ghost predicate Unbound(calls: seq<MI.Call>, p: Path) {
    forall i :: 0 <= i < |calls| ==> !BindsFrom(calls[i], p)
  }

  /** A device mount for a staging path, or a bind of a staging path of the same volume for a target. */
  predicate InRole(ne: NodeEnv, plan: Plan, req: MountRequest) {
    && req.mount.Some? && req.mount.value.src.Some? && req.mount.value.dst.Some?
    && req.mount.value.dst.value in plan
    && var src := req.mount.value.src.value;
       match plan[req.mount.value.dst.value]
       case StagingOf(volume) => volume in ne.device && src == ne.device[volume] && BIND_FLAG !in req.flags
       case TargetOf(volume) => src in plan && plan[src] == StagingOf(volume) && BIND_FLAG in req.flags
  }

  /** The path was answered mounted, and no unmount of it has been asked for since. */
  predicate Held(calls: seq<MI.Call>, p: Path) {
    if calls == [] then false
    else
      var front, c := calls[..|calls| - 1], calls[|calls| - 1];
      if PathOf(c) != Some(p) then Held(front, p) else c.MountCall? && (AnsweredOk(c) || Held(front, p))
  }

  /** A mount of the path has been asked for, and no unmount of it was answered OK since. */
  predicate Open(calls: seq<MI.Call>, p: Path) {
    if calls == [] then false
    else
      var front, c := calls[..|calls| - 1], calls[|calls| - 1];
      if PathOf(c) != Some(p) then Open(front, p) else c.MountCall? || (!AnsweredOk(c) && Open(front, p))
  }

  /**
   * The caller keeps roles, binds only from a path it holds, has one request for a path running at a time, and
   * does not ask for a path to be unmounted while a bind from it is running. What becomes of each step, and of
   * the files, is not restricted, nor is what goes on at other paths, of the same volume or not.
   */
  ghost predicate Allowed(ne: NodeEnv, plan: Plan, s: MI.State, event: MI.Event) {
    match event
    case NewMount(req) =>
      && InRole(ne, plan, req)
      && var src, dst := req.mount.value.src.value, req.mount.value.dst.value;
         && Quiet(s.calls, dst)
         && (plan[dst].TargetOf? ==> Held(s.calls, src))
    case NewUnmount(path) =>
      path.Some? && path.value in plan && Quiet(s.calls, path.value) && Unbound(s.calls, path.value)
    case _ => true
  }

  ghost predicate WellBehaved(ne: NodeEnv, cfg: Config, plan: Plan, s: MI.State, events: seq<MI.Event>) {
    forall k :: 0 <= k < |events| ==> Allowed(ne, plan, MI.Run(cfg, s, events[..k]), events[k])
  }

  /** The requests the node handlers send are in role. */
  lemma NodeRequestsInRole(ne: NodeEnv, plan: Plan, volume: string, sp: Path, target: Path, capability: Capability)
    requires volume in ne.device && sp in plan && plan[sp] == StagingOf(volume)
    ensures InRole(ne, plan, StageMount(StageRequest(volume, Some(sp), capability), ne.device[volume]))
    ensures target in plan && plan[target] == TargetOf(volume) ==>
      InRole(ne, plan, PublishMount(PublishRequest(volume, Some(sp), Some(target), capability)))
  {
    var flags := PublishMount(PublishRequest(volume, Some(sp), Some(target), capability)).flags;
    assert flags[0] == BIND_FLAG;
  }

  /**
   * What is true of a request while the paths in `mounted` are: it is in role; as long as it runs, its
   * snapshot is right about its own path, and a staging path it binds is mounted.
   */
  predicate CallRight(ne: NodeEnv, plan: Plan, mounted: set<Path>, c: MI.Call) {
    && Managed(plan, c)
    && var d := PathOf(c).value;
       match c
       case MountCall(req, stage) =>
         && InRole(ne, plan, req)
         && (Busy(c) && plan[d].TargetOf? ==> req.mount.value.src.value in mounted)
         && (stage.Check? ==> (d in stage.mounts <==> d in mounted))
         && (stage.CallMount? ==>
               && stage.src == req.mount.value.src.value && stage.dst == d && d !in mounted
               && (BIND in stage.flags <==> BIND_FLAG in req.flags))
         && (stage.CallChown? ==> d in mounted)
       case UnmountCall(_, stage) =>
         && (stage.CheckU? ==> (d in stage.mounts <==> d in mounted))
         && (stage.CallUnmount? ==> stage.d == d)
  }

  /** One step of a mount request: at most its own entry, and its facts stay right. */
  lemma MountStep(ne: NodeEnv, cfg: Config, plan: Plan, w: World, req: MountRequest, stage: MountStage, turn: Turn)
    returns (change: Change)
    requires CallRight(ne, plan, Mounted(w.table), MI.MountCall(req, stage))
    ensures var (later, next) := StepMount(cfg, w, req, stage, turn);
      && Changed(w.table, later.table, change) && !change.Popped?
      && (change.Pushed? ==>
            && Busy(MI.MountCall(req, stage)) && Some(change.entry.dst) == Dst(req)
            && change.entry.root == (if BIND_FLAG in req.flags then Resolve(w.table, req.mount.value.src.value)
                                     else OnDevice(req.mount.value.src.value, [])))
      && CallRight(ne, plan, Mounted(later.table), MI.MountCall(req, next))
      && (Busy(MI.MountCall(req, stage)) && AnsweredOk(MI.MountCall(req, next)) ==>
            Dst(req).value in Mounted(later.table))
  {
    CollectFlagsExact(req.flags);
    var (later, next) := StepMount(cfg, w, req, stage, turn);
    if stage.CallMount? && later != w {
      change := Pushed(later.table[|w.table|]);
      TableAppend(w.table, change.entry);
    } else {
      change := Same;
    }
  }

  /** One step of an unmount request: at most a pop of its own path, and its facts stay right. */
  lemma UnmountStep(ne: NodeEnv, cfg: Config, plan: Plan, w: World, path: Option<Path>, stage: UnmountStage, turn: Turn)
    returns (change: Change)
    requires CallRight(ne, plan, Mounted(w.table), MI.UnmountCall(path, stage)) && |At(w.table, path.value)| <= 1
    ensures var (later, next) := StepUnmount(cfg, w, path, stage, turn);
      && Changed(w.table, later.table, change) && !change.Pushed?
      && (change.Popped? ==> Busy(MI.UnmountCall(path, stage)) && change.d == path.value)
      && CallRight(ne, plan, Mounted(later.table), MI.UnmountCall(path, next))
      && (Busy(MI.UnmountCall(path, stage)) && AnsweredOk(MI.UnmountCall(path, next)) ==>
            path.value !in Mounted(later.table))
  {
    var (later, next) := StepUnmount(cfg, w, path, stage, turn);
    hide Resolve, Pop, Interactable;
    if stage.CallUnmount? && next == UnmountEnded(Unmounted) {
      change := Popped(path.value);
      PopAt(w.table, path.value, path.value);
      MountedIffAt(later.table, path.value);
    } else {
      change := Same;
    }
  }

  /** The table is the initial one followed by managed paths mounted from their own devices, each once. */
  ghost predicate TableRight(ne: NodeEnv, plan: Plan, initial: seq<Entry>, table: seq<Entry>) {
    initial <= table && OwnEntries(ne, plan, table[|initial|..]) && Unstacked(table[|initial|..])
  }

  ghost predicate CallsRight(ne: NodeEnv, plan: Plan, s: MI.State) {
    forall i :: 0 <= i < |s.calls| ==> CallRight(ne, plan, Mounted(s.world.table), s.calls[i])
  }

  /** A running request is the last one for its path. */
  ghost predicate OneAtATime(calls: seq<MI.Call>) {
    forall i, j :: 0 <= i < j < |calls| && Busy(calls[i]) ==> PathOf(calls[j]) != PathOf(calls[i])
  }

  /** No path is being unmounted while a bind from it is running. */
  ghost predicate SourcesStay(calls: seq<MI.Call>) {
    forall i, p :: 0 <= i < |calls| && calls[i].UnmountCall? && Busy(calls[i]) && PathOf(calls[i]) == Some(p) ==>
      Unbound(calls, p)
  }

  /** What the caller can tell from its requests: held paths are mounted, and mounted ones are open. */
  ghost predicate MemoryRight(plan: Plan, s: MI.State) {
    forall p :: p in plan ==>
      && (Held(s.calls, p) ==> p in Mounted(s.world.table))
      && (p in Mounted(s.world.table) ==> Open(s.calls, p))
  }

  ghost predicate Inv(ne: NodeEnv, plan: Plan, initial: seq<Entry>, s: MI.State) {
    && TableRight(ne, plan, initial, s.world.table)
    && CallsRight(ne, plan, s)
    && OneAtATime(s.calls)
    && SourcesStay(s.calls)
    && MemoryRight(plan, s)
  }

  /** What a right table shows of a managed path. */
  lemma RightTableNames(ne: NodeEnv, plan: Plan, initial: seq<Entry>, table: seq<Entry>, p: Path)
    requires ValidPlan(ne, plan, initial) && TableRight(ne, plan, initial, table) && p in plan
    ensures p in Mounted(table) ==> Resolve(table, p) == DeviceRoot(ne, plan, p)
    ensures p in Mounted(table) <==> p in Mounted(table[|initial|..])
    ensures |At(table, p)| <= 1
  {
    var own := table[|initial|..];
    assert table == initial + own;
    MountedByOwn(initial, own, p);
    if p in Mounted(own) {
      OwnResolves(ne, plan, initial, own, p);
    }
    AtConcat(initial, own, p);
    MountedIffAt(initial, p);
    assert |At(own, p)| <= 1;
  }

  /** The managed paths mounted after a change of the table. */
  ghost predicate MountedAfter(plan: Plan, mounted: set<Path>, later: set<Path>, change: Change) {
    forall p :: p in plan ==>
      (p in later <==> match change
                       case Same => p in mounted
                       case Pushed(entry) => p in mounted || p == entry.dst
                       case Popped(d) => p in mounted && p != d)
  }

  /** A change on a managed path, pushing its own device, keeps the table right. */
  lemma ChangeKeepsTable(ne: NodeEnv, plan: Plan, initial: seq<Entry>, table: seq<Entry>, later: seq<Entry>,
                         change: Change)
    requires ValidPlan(ne, plan, initial) && TableRight(ne, plan, initial, table) && Changed(table, later, change)
    requires change.Pushed? ==> change.entry.dst in plan && change.entry.root == DeviceRoot(ne, plan, change.entry.dst)
    requires change.Popped? ==> change.d in plan
    ensures TableRight(ne, plan, initial, later)
    ensures MountedAfter(plan, Mounted(table), Mounted(later), change)
  {
    var own := table[|initial|..];
    assert table == initial + own;
    var next := OwnAfter(ne, plan, initial, own, later, change);
    assert later[|initial|..] == next;
    forall p | p in plan
      ensures p in Mounted(table) <==> p in Mounted(own)
      ensures p in Mounted(later) <==> p in Mounted(next)
    {
      MountedByOwn(initial, own, p);
      MountedByOwn(initial, next, p);
    }
  }

  /** A request for another path, or one that has ended, does not mind a change at `d` that takes no source from it. */
  lemma CallStaysRight(ne: NodeEnv, plan: Plan, mounted: set<Path>, later: set<Path>, c: MI.Call, d: Path)
    requires CallRight(ne, plan, mounted, c) && (Busy(c) ==> PathOf(c) != Some(d))
    requires d in mounted && d !in later ==> !BindsFrom(c, d)
    requires forall p :: p in plan && p != d ==> (p in later <==> p in mounted)
    ensures CallRight(ne, plan, later, c)
  {
  }

  /** A step of a request changes what the caller can tell of the request's own path only. */
  lemma {:induction false} MemoryAfterStep(calls: seq<MI.Call>, i: nat, c: MI.Call, p: Path)
    requires i < |calls| && PathOf(c) == PathOf(calls[i]) && (c.MountCall? <==> calls[i].MountCall?)
    ensures Held(calls[i := c], p) ==> Held(calls, p) || (PathOf(c) == Some(p) && c.MountCall? && AnsweredOk(c))
    ensures Open(calls, p) ==> Open(calls[i := c], p) || (PathOf(c) == Some(p) && c.UnmountCall? && AnsweredOk(c))
  {
    var last := |calls| - 1;
    if i == last {
      assert calls[i := c][..last] == calls[..last];
    } else {
      MemoryAfterStep(calls[..last], i, c, p);
      assert calls[i := c][..last] == calls[..last][i := c];
    }
  }

  /**
   * The last request about a path decides what the caller can tell: a mount opens it, and holds it once answered
   * OK; an unmount lets go of it, and closes it once answered OK.
   */
  lemma {:induction false} LastRequestDecides(calls: seq<MI.Call>, i: nat, p: Path)
    requires i < |calls| && PathOf(calls[i]) == Some(p)
    requires forall j :: i < j < |calls| ==> PathOf(calls[j]) != Some(p)
    ensures calls[i].MountCall? ==> Open(calls, p) && (AnsweredOk(calls[i]) ==> Held(calls, p))
    ensures calls[i].UnmountCall? ==> !Held(calls, p) && (AnsweredOk(calls[i]) ==> !Open(calls, p))
  {
    if i < |calls| - 1 {
      LastRequestDecides(calls[..|calls| - 1], i, p);
    }
  }

  /** A held path is not being unmounted. */
  lemma HeldStays(calls: seq<MI.Call>, p: Path, i: nat)
    requires OneAtATime(calls) && Held(calls, p) && i < |calls| && calls[i].UnmountCall? && PathOf(calls[i]) == Some(p)
    ensures !Busy(calls[i])
  {
    if Busy(calls[i]) {
      LastRequestDecides(calls, i, p);
    }
  }

  lemma NewCallKeepsOrder(ne: NodeEnv, plan: Plan, s: MI.State, event: MI.Event, c: MI.Call)
    requires Allowed(ne, plan, s, event) && OneAtATime(s.calls) && SourcesStay(s.calls)
    requires (event.NewMount? && c == MI.MountCall(event.req, ReadTable))
             || (event.NewUnmount? && c == MI.UnmountCall(event.path, ReadTableU))
    ensures OneAtATime(s.calls + [c]) && SourcesStay(s.calls + [c])
  {
    var calls := s.calls + [c];
    forall i, j | 0 <= i < j < |calls| && Busy(calls[i]) ensures PathOf(calls[j]) != PathOf(calls[i]) {
      assert calls[i] == s.calls[i];
    }
    forall i, p | 0 <= i < |calls| && calls[i].UnmountCall? && Busy(calls[i]) && PathOf(calls[i]) == Some(p)
      ensures Unbound(calls, p)
    {
      forall j | 0 <= j < |calls| ensures !BindsFrom(calls[j], p) {
        if j < |s.calls| {
          assert Unbound(s.calls, p);
        } else if BindsFrom(c, p) {
          assert calls[i] == s.calls[i];
          HeldStays(s.calls, p, i);
        }
      }
    }
  }

  /** A new request that the caller may make keeps the invariant. */
  lemma NewCallKeepsInv(ne: NodeEnv, cfg: Config, plan: Plan, initial: seq<Entry>, s: MI.State, event: MI.Event)
    requires Inv(ne, plan, initial, s) && Allowed(ne, plan, s, event) && (event.NewMount? || event.NewUnmount?)
    ensures Inv(ne, plan, initial, MI.Apply(cfg, s, event))
  {
    var later := MI.Apply(cfg, s, event);
    var c := later.calls[|s.calls|];
    assert later.calls == s.calls + [c] && later.calls[..|s.calls|] == s.calls;
    assert later.world == s.world;
    hide TableRight, OneAtATime, SourcesStay, Quiet, Unbound, Mounted, InRole, MI.Apply, CallRight, MemoryRight;
    NewCallKeepsOrder(ne, plan, s, event, c);
    NewCallRight(ne, plan, s, event, c);
    NewCallKeepsMemory(plan, s, later, c);
  }

  /** A new request opens its path or lets go of it, and has not been answered. */
  lemma NewCallKeepsMemory(plan: Plan, s: MI.State, later: MI.State, c: MI.Call)
    requires MemoryRight(plan, s) && later == s.(calls := s.calls + [c]) && !AnsweredOk(c)
    ensures MemoryRight(plan, later)
  {
    hide Mounted, AnsweredOk;
    assert later.calls[..|s.calls|] == s.calls;
  }

  lemma NewCallRight(ne: NodeEnv, plan: Plan, s: MI.State, event: MI.Event, c: MI.Call)
    requires Allowed(ne, plan, s, event) && MemoryRight(plan, s)
    requires (event.NewMount? && c == MI.MountCall(event.req, ReadTable))
             || (event.NewUnmount? && c == MI.UnmountCall(event.path, ReadTableU))
    ensures CallRight(ne, plan, Mounted(s.world.table), c)
  {
    hide Mounted, Held, Open, Quiet, Unbound;
  }

  /** The table after a step of a running request, and that request's own facts. */
  lemma StepChange(ne: NodeEnv, cfg: Config, plan: Plan, initial: seq<Entry>, s: MI.State, i: nat, turn: Turn)
    returns (change: Change)
    requires ValidPlan(ne, plan, initial) && Inv(ne, plan, initial, s) && i < |s.calls| && Busy(s.calls[i])
    ensures var later, d := MI.Apply(cfg, s, MI.Poll(i, turn)), PathOf(s.calls[i]);
      && d.Some? && d.value in plan
      && later.calls == s.calls[i := later.calls[i]]
      && PathOf(later.calls[i]) == d && (later.calls[i].MountCall? <==> s.calls[i].MountCall?)
      && (later.calls[i].MountCall? ==> later.calls[i].req == s.calls[i].req)
      && TableRight(ne, plan, initial, later.world.table)
      && MountedAfter(plan, Mounted(s.world.table), Mounted(later.world.table), change)
      && (change.Pushed? ==> s.calls[i].MountCall? && change.entry.dst == d.value)
      && (change.Popped? ==> s.calls[i].UnmountCall? && change.d == d.value)
      && CallRight(ne, plan, Mounted(later.world.table), later.calls[i])
      && (AnsweredOk(later.calls[i]) ==> (d.value in Mounted(later.world.table) <==> s.calls[i].MountCall?))
  {
    var table := s.world.table;
    assert CallRight(ne, plan, Mounted(table), s.calls[i]);
    match s.calls[i] {
      case MountCall(req, stage) =>
        change := MountStep(ne, cfg, plan, s.world, req, stage, turn);
        if BIND_FLAG in req.flags {
          RightTableNames(ne, plan, initial, table, req.mount.value.src.value);
        }
      case UnmountCall(path, stage) =>
        RightTableNames(ne, plan, initial, table, path.value);
        change := UnmountStep(ne, cfg, plan, s.world, path, stage, turn);
    }
    ChangeKeepsTable(ne, plan, initial, table, MI.Apply(cfg, s, MI.Poll(i, turn)).world.table, change);
  }

  /** A step of a running request keeps every request's facts. */
  lemma StepKeepsCalls(ne: NodeEnv, plan: Plan, s: MI.State, later: MI.State, i: nat, d: Path)
    requires CallsRight(ne, plan, s) && OneAtATime(s.calls) && SourcesStay(s.calls)
    requires i < |s.calls| && Busy(s.calls[i]) && PathOf(s.calls[i]) == Some(d)
    requires |later.calls| == |s.calls| && later.calls == s.calls[i := later.calls[i]]
    requires CallRight(ne, plan, Mounted(later.world.table), later.calls[i])
    requires forall p :: p in plan && p != d ==> (p in Mounted(later.world.table) <==> p in Mounted(s.world.table))
    requires d in Mounted(s.world.table) && d !in Mounted(later.world.table) ==> s.calls[i].UnmountCall?
    ensures CallsRight(ne, plan, later)
  {
    hide Mounted;
    var mounted, after := Mounted(s.world.table), Mounted(later.world.table);
    forall j | 0 <= j < |later.calls| ensures CallRight(ne, plan, after, later.calls[j]) {
      if j != i {
        assert CallRight(ne, plan, mounted, s.calls[j]);
        assert s.calls[i].UnmountCall? ==> Unbound(s.calls, d);
        CallStaysRight(ne, plan, mounted, after, s.calls[j], d);
      }
    }
  }

  /** A step of a request starts no other request. */
  lemma StepKeepsOrder(calls: seq<MI.Call>, later: seq<MI.Call>, i: nat)
    requires OneAtATime(calls) && SourcesStay(calls) && i < |calls| == |later| && Busy(calls[i])
    requires later == calls[i := later[i]] && PathOf(later[i]) == PathOf(calls[i])
    requires later[i].MountCall? <==> calls[i].MountCall?
    requires later[i].MountCall? ==> later[i].req == calls[i].req
    ensures OneAtATime(later) && SourcesStay(later)
  {
    forall a, b | 0 <= a < b < |later| && Busy(later[a]) ensures PathOf(later[b]) != PathOf(later[a]) {
      assert Busy(calls[a]) && PathOf(later[a]) == PathOf(calls[a]) && PathOf(later[b]) == PathOf(calls[b]);
    }
    forall a, p | 0 <= a < |later| && later[a].UnmountCall? && Busy(later[a]) && PathOf(later[a]) == Some(p)
      ensures Unbound(later, p)
    {
      assert calls[a].UnmountCall? && Busy(calls[a]) && PathOf(calls[a]) == Some(p);
      forall j | 0 <= j < |later| ensures !BindsFrom(later[j], p) {
        assert !BindsFrom(calls[j], p);
      }
    }
  }

  /** A step of a running request keeps what the caller can tell. */
  lemma StepKeepsMemory(plan: Plan, s: MI.State, later: MI.State, i: nat, d: Path, change: Change)
    requires OneAtATime(s.calls) && MemoryRight(plan, s) && i < |s.calls| && Busy(s.calls[i])
    requires PathOf(s.calls[i]) == Some(d) && d in plan
    requires |later.calls| == |s.calls| && later.calls == s.calls[i := later.calls[i]]
    requires PathOf(later.calls[i]) == Some(d) && (later.calls[i].MountCall? <==> s.calls[i].MountCall?)
    requires MountedAfter(plan, Mounted(s.world.table), Mounted(later.world.table), change)
    requires change.Pushed? ==> s.calls[i].MountCall? && change.entry.dst == d
    requires change.Popped? ==> s.calls[i].UnmountCall? && change.d == d
    requires AnsweredOk(later.calls[i]) ==> (d in Mounted(later.world.table) <==> s.calls[i].MountCall?)
    ensures MemoryRight(plan, later)
  {
    hide Mounted, Held, Open, AnsweredOk;
    LastRequestDecides(s.calls, i, d);
    LastRequestDecides(later.calls, i, d);
    forall p | p in plan
      ensures Held(later.calls, p) ==> p in Mounted(later.world.table)
      ensures p in Mounted(later.world.table) ==> Open(later.calls, p)
    {
      MemoryAfterStep(s.calls, i, later.calls[i], p);
    }
  }

  lemma PollKeepsInv(ne: NodeEnv, cfg: Config, plan: Plan, initial: seq<Entry>, s: MI.State, i: nat, turn: Turn)
    requires ValidPlan(ne, plan, initial) && Inv(ne, plan, initial, s) && i < |s.calls| && Busy(s.calls[i])
    ensures Inv(ne, plan, initial, MI.Apply(cfg, s, MI.Poll(i, turn)))
  {
    var later := MI.Apply(cfg, s, MI.Poll(i, turn));
    var change := StepChange(ne, cfg, plan, initial, s, i, turn);
    hide MI.Apply, TableRight, Mounted, CallRight, Busy;
    var d := PathOf(s.calls[i]).value;
    StepKeepsCalls(ne, plan, s, later, i, d);
    StepKeepsOrder(s.calls, later.calls, i);
    StepKeepsMemory(plan, s, later, i, d, change);
  }

  lemma ApplyKeepsInv(ne: NodeEnv, cfg: Config, plan: Plan, initial: seq<Entry>, s: MI.State, event: MI.Event)
    requires ValidPlan(ne, plan, initial) && Inv(ne, plan, initial, s) && Allowed(ne, plan, s, event)
    ensures Inv(ne, plan, initial, MI.Apply(cfg, s, event))
  {
    if event.NewMount? || event.NewUnmount? {
      NewCallKeepsInv(ne, cfg, plan, initial, s, event);
    } else if event.Poll? && event.call < |s.calls| && Busy(s.calls[event.call]) {
      PollKeepsInv(ne, cfg, plan, initial, s, event.call, event.turn);
    } else {
      IdleEvent(cfg, s, event);
      hide MI.Apply, TableRight, CallRight, OneAtATime, SourcesStay;
    }
  }

  /** A change of files, or the poll of a request that is not running, leaves the table and the requests alone. */
  lemma IdleEvent(cfg: Config, s: MI.State, event: MI.Event)
    requires event.FilesChange? || (event.Poll? && (event.call < |s.calls| ==> !Busy(s.calls[event.call])))
    ensures var later := MI.Apply(cfg, s, event); later.world.table == s.world.table && later.calls == s.calls
  {
    if event.Poll? && event.call < |s.calls| {
      assert s.calls[event.call := s.calls[event.call]] == s.calls;
    }
  }

  lemma {:induction false} RunKeepsInv(ne: NodeEnv, cfg: Config, plan: Plan, w: World, events: seq<MI.Event>)
    requires ValidPlan(ne, plan, w.table) && WellBehaved(ne, cfg, plan, MI.State(w, []), events)
    ensures Inv(ne, plan, w.table, MI.Run(cfg, MI.State(w, []), events))
  {
    var s0 := MI.State(w, []);
    if events == [] {
      assert w.table[|w.table|..] == [];
    } else {
      var front := events[..|events| - 1];
      forall k | 0 <= k < |front| ensures Allowed(ne, plan, MI.Run(cfg, s0, front[..k]), front[k]) {
        assert front[..k] == events[..k];
      }
      RunKeepsInv(ne, cfg, plan, w, front);
      ApplyKeepsInv(ne, cfg, plan, w.table, MI.Run(cfg, s0, front), events[|events| - 1]);
    }
  }

  /** What lifecycle safety says of the table and the paths the caller holds. */
  ghost predicate Safe(ne: NodeEnv, plan: Plan, initial: seq<Entry>, table: seq<Entry>) {
    && initial <= table
    && (forall k :: |initial| <= k < |table| ==>
          && table[k].dst in plan && plan[table[k].dst].volume in ne.device
          && table[k].root == OnDevice(ne.device[plan[table[k].dst].volume], []))
    && (forall p :: p in plan && plan[p].volume in ne.device ==>
          && |At(table, p)| <= 1
          && (p in Mounted(table) ==> Resolve(table, p) == OnDevice(ne.device[plan[p].volume], [])))
  }

  lemma RightTableSafe(ne: NodeEnv, plan: Plan, initial: seq<Entry>, table: seq<Entry>)
    requires ValidPlan(ne, plan, initial) && TableRight(ne, plan, initial, table)
    ensures Safe(ne, plan, initial, table)
  {
    forall k | |initial| <= k < |table| ensures table[k] in table[|initial|..] {
      assert table[|initial|..][k - |initial|] == table[k];
    }
    forall p | p in plan
      ensures |At(table, p)| <= 1
      ensures p in Mounted(table) ==> Resolve(table, p) == DeviceRoot(ne, plan, p)
    {
      RightTableNames(ne, plan, initial, table, p);
    }
  }

  /** A right table with no managed path mounted is the initial one. */
  lemma NothingManagedMounted(ne: NodeEnv, plan: Plan, initial: seq<Entry>, table: seq<Entry>)
    requires ValidPlan(ne, plan, initial) && TableRight(ne, plan, initial, table)
    requires forall p :: p in plan ==> p !in Mounted(table)
    ensures table == initial
  {
    if |initial| < |table| {
      var own := table[|initial|..];
      var e := own[0];
      assert e in own;
      MountedHasEntry(own, e.dst);
      RightTableNames(ne, plan, initial, table, e.dst);
    }
  }

  /**
   * Lifecycle safety with requests interleaved: in every state of every well-behaved run, whatever each step
   * came to and whatever else changed the files, the mount table is the initial one followed by managed
   * paths mounted from their own volumes' devices. Each managed path is mounted at most once, names the root
   * of its own volume's filesystem while it is, and is mounted while held.
   */
  lemma InterleavedSafety(ne: NodeEnv, cfg: Config, plan: Plan, w: World, events: seq<MI.Event>)
    requires ValidPlan(ne, plan, w.table) && WellBehaved(ne, cfg, plan, MI.State(w, []), events)
    ensures var s := MI.Run(cfg, MI.State(w, []), events);
      && Safe(ne, plan, w.table, s.world.table)
      && forall p :: p in plan && Held(s.calls, p) ==> p in Mounted(s.world.table)
  {
    RunKeepsInv(ne, cfg, plan, w, events);
    RightTableSafe(ne, plan, w.table, MI.Run(cfg, MI.State(w, []), events).world.table);
  }

  /**
   * Teardown conservation with requests interleaved: once every managed path that was ever asked to be
   * mounted has had an unmount answered OK since, the mount table is the initial one, entry for entry.
   */
  lemma InterleavedTeardown(ne: NodeEnv, cfg: Config, plan: Plan, w: World, events: seq<MI.Event>)
    requires ValidPlan(ne, plan, w.table) && WellBehaved(ne, cfg, plan, MI.State(w, []), events)
    requires forall p :: p in plan ==> !Open(MI.Run(cfg, MI.State(w, []), events).calls, p)
    ensures MI.Run(cfg, MI.State(w, []), events).world.table == w.table
  {
    RunKeepsInv(ne, cfg, plan, w, events);
    NothingManagedMounted(ne, plan, w.table, MI.Run(cfg, MI.State(w, []), events).world.table);
  }
}
