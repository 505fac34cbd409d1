/**
 * The node handlers themselves interleaved, step by step, over the interleaved mount daemon: every await of a
 * handler, every system call of the daemon, lost answers, dropped handlers whose request runs on, and any
 * change of files in between. Lifecycle safety and teardown over all its runs.
 */
module NodeInterleaving {
  import opened Status
  import opened MountTable
  import opened Mountd
  import opened MountRefinement
  import opened Node
  import opened Lifecycle
  import opened LI = LifecycleInterleaving
  import MI = MountInterleaving

  datatype Ask =
    | AskStage(stage: StageRequest)
    | AskUnstage(unstage: PathRequest)
    | AskPublish(publish: PublishRequest)
    | AskUnpublish(unpublish: PathRequest)

  /** Where a handler stands: the await it is at, or its reply. `call` is the daemon's number for its request. */
  datatype Point =
    | LookUp
    | MakeTarget(device: Path)
    | Send(device: Path)
    | Waiting(call: nat)
    | Clean
    | Replied(result: Result<()>)
    | Gone

  datatype Handler = Handler(ask: Ask, point: Point)

  datatype State = State(mount: MI.State, handlers: seq<Handler>)

  /** What becomes of a handler's step: it goes on, its call fails or its answer is lost, or it is dropped. */
  datatype Move = Proceeds | Errs(code: Code) | Abandoned

  datatype Event =
    | Arrive(ask: Ask)
    | Step(handler: nat, move: Move)
    | Serve(call: nat, turn: Turn)
    | FilesChange(inodes: map<Inode, Meta>)

  /** Argument validation. An empty publish target is let through. */
  predicate Complete(ask: Ask) {
    match ask
    case AskStage(r) => r.volume != "" && r.staging.Some? && r.capability.Some?
    case AskUnstage(r) => r.volume != "" && r.path.Some?
    case AskPublish(r) => r.volume != "" && r.staging.Some? && r.capability.Some?
    case AskUnpublish(r) => r.volume != "" && r.path.Some?
  }

  function VolumeOf(ask: Ask): string {
    match ask
    case AskStage(r) => r.volume
    case AskUnstage(r) => r.volume
    case AskPublish(r) => r.volume
    case AskUnpublish(r) => r.volume
  }

  /** The path a validated call mounts or unmounts. */
  function OwnPath(ask: Ask): Option<Path> {
    if !Complete(ask) then None
    else
      match ask
      case AskStage(r) => r.staging
      case AskUnstage(r) => r.path
      case AskPublish(r) => r.target
      case AskUnpublish(r) => r.path
  }

  predicate Mounts(ask: Ask) {
    ask.AskStage? || ask.AskPublish?
  }

  /** What has to exist before the daemon is asked. */
  predicate Ready(w: World, ask: Ask, device: Path)
    requires Complete(ask)
  {
    match ask
    case AskStage(r) => Exists(w, device) && Exists(w, r.staging.value)
    case AskUnstage(_) => Exists(w, device)
    case AskPublish(r) => Exists(w, r.staging.value)
    case AskUnpublish(_) => true
  }

  /** The request the handler sends. */
  function RequestOf(ask: Ask, device: Path): MI.Event {
    match ask
    case AskStage(r) => MI.NewMount(StageMount(r, device))
    case AskUnstage(r) => MI.NewUnmount(r.path)
    case AskPublish(r) => MI.NewMount(PublishMount(r))
    case AskUnpublish(r) => MI.NewUnmount(r.path)
  }

  /** The daemon's answer, when it has one; a request dropped by the daemon reads as an error. */
  function AnswerOf(c: MI.Call): Option<Result<()>> {
    match c
    case MountCall(_, MountEnded(end)) => Some(MountReply(end))
    case MountCall(_, MountDropped) => Some(Err(Unavailable))
    case UnmountCall(_, UnmountEnded(end)) => Some(UnmountReply(end))
    case UnmountCall(_, UnmountDropped) => Some(Err(Unavailable))
    case _ => None
  }

  predicate Active(h: Handler) {
    !h.point.Replied? && !h.point.Gone?
  }

  function StepHandler(ne: NodeEnv, cfg: Config, m: MI.State, h: Handler, move: Move): (MI.State, Point)
    requires Complete(h.ask)
  {
    if !Active(h) then (m, h.point)
    else if move.Abandoned? then (m, Gone)
    else
      match h.point
      case LookUp =>
        (match BlockPath(ne, VolumeOf(h.ask), if move.Errs? then Some(move.code) else None)
         case Err(code) => (m, Replied(Err(code)))
         case Ok(device) => (m, if h.ask.AskPublish? then MakeTarget(device) else Send(device)))
      case MakeTarget(device) =>
        (match TargetMade(ne, m.world, OwnPath(h.ask), move.Errs?)
         case None => (m, Replied(Err(Internal)))
         case Some(made) => (MI.Apply(cfg, m, MI.FilesChange(made.inodes)), Send(device)))
      case Send(device) =>
        if !Ready(m.world, h.ask, device) then (m, Replied(Err(FailedPrecondition)))
        else if move.Errs? then (m, Replied(Err(move.code)))
        else (MI.Apply(cfg, m, RequestOf(h.ask, device)), Waiting(|m.calls|))
      case Waiting(k) =>
        if move.Errs? then (m, Replied(Err(move.code)))
        else if k < |m.calls| && AnswerOf(m.calls[k]).Some? then
          var reply := AnswerOf(m.calls[k]).value;
          (m, if reply.Ok? && h.ask.AskUnpublish? then Clean else Replied(reply))
        else (m, h.point)
      case Clean =>
        var cleaned := match OwnPath(h.ask) case Some(p) => RemoveDir(m.world, p, move.Errs?) case None => m.world;
        (MI.Apply(cfg, m, MI.FilesChange(cleaned.inodes)), Replied(Ok(())))
  }

  function Apply(ne: NodeEnv, cfg: Config, s: State, event: Event): State {
    match event
    case Arrive(ask) =>
      var point := if Complete(ask) then LookUp else Replied(Err(InvalidArgument));
      s.(handlers := s.handlers + [Handler(ask, point)])
    case Step(i, move) =>
      if i >= |s.handlers| || !Complete(s.handlers[i].ask) then s
      else
        var (m, point) := StepHandler(ne, cfg, s.mount, s.handlers[i], move);
        State(m, s.handlers[i := s.handlers[i].(point := point)])
    case Serve(k, turn) => s.(mount := MI.Apply(cfg, s.mount, MI.Poll(k, turn)))
    case FilesChange(inodes) => s.(mount := MI.Apply(cfg, s.mount, MI.FilesChange(inodes)))
  }

  function Run(ne: NodeEnv, cfg: Config, s: State, events: seq<Event>): State {
    if events == [] then s
    else Apply(ne, cfg, Run(ne, cfg, s, events[..|events| - 1]), events[|events| - 1])
  }

  function Start(w: World): State {
    State(MI.State(w, []), [])
  }

  predicate RepliedOk(h: Handler) {
    h.point.Replied? && h.point.result.Ok?
  }

  /** A stage or publish of the path was answered OK, and its unstaging or unpublishing has not been asked for since. */
  predicate HeldPath(handlers: seq<Handler>, p: Path) {
    if handlers == [] then false
    else
      var front, h := handlers[..|handlers| - 1], handlers[|handlers| - 1];
      if OwnPath(h.ask) != Some(p) then HeldPath(front, p) else Mounts(h.ask) && (RepliedOk(h) || HeldPath(front, p))
  }

  /** The path was asked to be staged or published, and no unstaging or unpublishing of it was answered OK since. */
  predicate OpenPath(handlers: seq<Handler>, p: Path) {
    if handlers == [] then false
    else
      var front, h := handlers[..|handlers| - 1], handlers[|handlers| - 1];
      if OwnPath(h.ask) != Some(p) then OpenPath(front, p) else Mounts(h.ask) || (!RepliedOk(h) && OpenPath(front, p))
  }

  /** The roles of the paths a call names. */
  predicate AskInRole(plan: Plan, ask: Ask) {
    match ask
    case AskStage(r) => r.staging.Some? && r.staging.value in plan && plan[r.staging.value] == StagingOf(r.volume)
    case AskUnstage(r) => r.path.Some? && r.path.value in plan
    case AskPublish(r) =>
      && r.staging.Some? && r.staging.value in plan && plan[r.staging.value] == StagingOf(r.volume)
      && r.target.Some? && r.target.value in plan && plan[r.target.value] == TargetOf(r.volume)
    case AskUnpublish(r) => r.path.Some? && r.path.value in plan
  }

  predicate PublishesFrom(ask: Ask, p: Path) {
    ask.AskPublish? && ask.publish.staging == Some(p)
  }

  /** No call is at work on the path. */
  ghost predicate Free(handlers: seq<Handler>, p: Path) {
    forall i :: 0 <= i < |handlers| && Active(handlers[i]) ==> OwnPath(handlers[i].ask) != Some(p)
  }

  /** No publish from the path is at work. */
  ghost predicate Unpublishing(handlers: seq<Handler>, p: Path) {
    forall i :: 0 <= i < |handlers| && Active(handlers[i]) ==> !PublishesFrom(handlers[i].ask, p)
  }

  /**
   * The caller keeps roles, has one call for a path at work at a time, publishes only from a path it knows to
   * be staged, and does not unstage a path while a publish from it is at work. A call that was given up counts
   * until its request to the daemon, if it got so far, has ended. Calls with missing arguments are free.
   */
  ghost predicate Allowed(plan: Plan, s: State, event: Event) {
    event.Arrive? && Complete(event.ask) ==>
      && AskInRole(plan, event.ask)
      && var p := OwnPath(event.ask).value;
         && Free(s.handlers, p) && Quiet(s.mount.calls, p)
         && (event.ask.AskPublish? ==> HeldPath(s.handlers, event.ask.publish.staging.value))
         && (!Mounts(event.ask) ==> Unpublishing(s.handlers, p) && Unbound(s.mount.calls, p))
  }

  ghost predicate WellBehaved(ne: NodeEnv, cfg: Config, plan: Plan, s: State, events: seq<Event>) {
    forall k :: 0 <= k < |events| ==> Allowed(plan, Run(ne, cfg, s, events[..k]), events[k])
  }

  /** What is true of a call at work. */
  ghost predicate HandlerRight(ne: NodeEnv, plan: Plan, calls: seq<MI.Call>, h: Handler) {
    && Complete(h.ask) && AskInRole(plan, h.ask)
    && var p := OwnPath(h.ask).value;
       match h.point
       case Waiting(k) =>
         && k < |calls| && PathOf(calls[k]) == Some(p) && (calls[k].MountCall? <==> Mounts(h.ask))
         && forall j :: k < j < |calls| ==> PathOf(calls[j]) != Some(p)
       case Clean => !Mounts(h.ask) && !Open(calls, p)
       case _ =>
         && Quiet(calls, p)
         && (h.ask.AskPublish? ==> Held(calls, h.ask.publish.staging.value))
         && (!Mounts(h.ask) ==> Unbound(calls, p))
         && (h.point.MakeTarget? ==> h.ask.AskPublish?)
         && (h.point.Send? && h.ask.AskStage? ==>
               h.ask.stage.volume in ne.device && h.point.device == ne.device[h.ask.stage.volume])
  }

  ghost predicate HandlersRight(ne: NodeEnv, plan: Plan, s: State) {
    forall i :: 0 <= i < |s.handlers| && Active(s.handlers[i]) ==> HandlerRight(ne, plan, s.mount.calls, s.handlers[i])
  }

  /** A call at work is the last one for its path, and no path is unmounted while a publish from it is at work. */
  ghost predicate Ordered(handlers: seq<Handler>) {
    && (forall i :: 0 <= i < |handlers| && Active(handlers[i]) ==> OwnPath(handlers[i].ask).Some?)
    && (forall i, j :: 0 <= i < j < |handlers| && Active(handlers[i]) ==>
          OwnPath(handlers[j].ask) != OwnPath(handlers[i].ask))
    && (forall i :: 0 <= i < |handlers| && Active(handlers[i]) && !Mounts(handlers[i].ask) ==>
          Unpublishing(handlers, OwnPath(handlers[i].ask).value))
  }

  /** The caller's knowledge is the daemon's. */
  ghost predicate Known(plan: Plan, s: State) {
    forall p :: p in plan ==>
      && (HeldPath(s.handlers, p) ==> Held(s.mount.calls, p))
      && (Open(s.mount.calls, p) ==> OpenPath(s.handlers, p))
  }

  ghost predicate Inv(ne: NodeEnv, plan: Plan, initial: seq<Entry>, s: State) {
    && LI.Inv(ne, plan, initial, s.mount)
    && HandlersRight(ne, plan, s)
    && Ordered(s.handlers)
    && Known(plan, s)
  }

  /** The last call for a path decides what the caller knows of it. */
  lemma {:induction false} LastAskDecides(handlers: seq<Handler>, i: nat, p: Path)
    requires i < |handlers| && OwnPath(handlers[i].ask) == Some(p)
    requires forall j :: i < j < |handlers| ==> OwnPath(handlers[j].ask) != Some(p)
    ensures Mounts(handlers[i].ask) ==> OpenPath(handlers, p)
    ensures !Mounts(handlers[i].ask) ==> !HeldPath(handlers, p)
  {
    if i < |handlers| - 1 {
      LastAskDecides(handlers[..|handlers| - 1], i, p);
    }
  }

  /** A call's step changes what the caller knows only by an OK reply, about the call's own path. */
  lemma {:induction false} KnownAfterStep(handlers: seq<Handler>, i: nat, h: Handler, p: Path)
    requires i < |handlers| && h.ask == handlers[i].ask
    ensures HeldPath(handlers[i := h], p) ==>
      HeldPath(handlers, p) || (OwnPath(h.ask) == Some(p) && Mounts(h.ask) && RepliedOk(h))
    ensures OpenPath(handlers, p) ==>
      OpenPath(handlers[i := h], p) || (OwnPath(h.ask) == Some(p) && !Mounts(h.ask) && RepliedOk(h))
  {
    var last := |handlers| - 1;
    if i == last {
      assert handlers[i := h][..last] == handlers[..last];
    } else {
      KnownAfterStep(handlers[..last], i, h, p);
      assert handlers[i := h][..last] == handlers[..last][i := h];
    }
  }

  /** A path the caller holds is not being unmounted. */
  lemma HeldNotUnmounted(handlers: seq<Handler>, p: Path, i: nat)
    requires Ordered(handlers) && HeldPath(handlers, p)
    requires i < |handlers| && !Mounts(handlers[i].ask) && OwnPath(handlers[i].ask) == Some(p)
    ensures !Active(handlers[i])
  {
    if Active(handlers[i]) {
      LastAskDecides(handlers, i, p);
    }
  }

  /** The daemon's requests go on: none starts, and one that has ended stays as it is. */
  ghost predicate Progress(calls: seq<MI.Call>, later: seq<MI.Call>) {
    && |later| == |calls|
    && forall i :: 0 <= i < |calls| ==>
         && PathOf(later[i]) == PathOf(calls[i]) && (later[i].MountCall? <==> calls[i].MountCall?)
         && (calls[i].MountCall? ==> later[i].req == calls[i].req)
         && (!Busy(calls[i]) ==> later[i] == calls[i])
  }

  lemma ServeProgresses(cfg: Config, m: MI.State, k: nat, turn: Turn)
    ensures Progress(m.calls, MI.Apply(cfg, m, MI.Poll(k, turn)).calls)
  {
    hide StepMount, StepUnmount;
    if k < |m.calls| && !Busy(m.calls[k]) {
      PollEnded(cfg, m, k, turn);
    }
  }

  lemma PollEnded(cfg: Config, m: MI.State, k: nat, turn: Turn)
    requires k < |m.calls| ==> !Busy(m.calls[k])
    ensures MI.Apply(cfg, m, MI.Poll(k, turn)) == m
  {
    if k < |m.calls| {
      assert m.calls[k := m.calls[k]] == m.calls;
    }
  }

  lemma {:induction false} ProgressKeepsMemory(calls: seq<MI.Call>, later: seq<MI.Call>, p: Path)
    requires Progress(calls, later)
    ensures Held(calls, p) ==> Held(later, p)
    ensures Open(later, p) ==> Open(calls, p)
  {
    if calls != [] {
      ProgressKeepsMemory(calls[..|calls| - 1], later[..|later| - 1], p);
    }
  }

  /** What is true of a call at work stays true as the daemon's requests go on. */
  lemma ProgressKeepsRight(ne: NodeEnv, plan: Plan, calls: seq<MI.Call>, later: seq<MI.Call>, h: Handler)
    requires HandlerRight(ne, plan, calls, h) && Progress(calls, later)
    ensures HandlerRight(ne, plan, later, h)
  {
    ProgressKeepsMemory(calls, later, OwnPath(h.ask).value);
    if h.ask.AskPublish? {
      ProgressKeepsMemory(calls, later, h.ask.publish.staging.value);
    }
    hide Held, Open;
    forall i, p | 0 <= i < |calls| && !BindsFrom(calls[i], p) ensures !BindsFrom(later[i], p) {
    }
  }

  /**
   * A call that is dropped asks the daemon for nothing more and is never answered; a request it has sent runs on.
   * One whose call to the daemon fails before it gets there has not asked for anything either.
   */
  lemma GivenUp(ne: NodeEnv, cfg: Config, s: State, i: nat, code: Code)
    requires i < |s.handlers| && Active(s.handlers[i]) && Complete(s.handlers[i].ask)
    ensures var t := Apply(ne, cfg, s, Step(i, Abandoned));
      t.mount == s.mount && t.handlers == s.handlers[i := Handler(s.handlers[i].ask, Gone)]
    ensures var t := Apply(ne, cfg, s, Step(i, Errs(code)));
      && t.mount.calls == s.mount.calls && t.mount.world.table == s.mount.world.table
      && (s.handlers[i].point.Waiting? ==>
            t == s.(handlers := s.handlers[i := Handler(s.handlers[i].ask, Replied(Err(code)))]))
  {
    hide RemoveDir, TargetMade, Ready;
  }

  /**
   * A call that waits for the daemon goes on waiting while its request runs, and passes on how that ended: the
   * status it was refused with, Unavailable for a request the daemon dropped, and OK for one answered OK, at once
   * or, for an unpublish, once the target has been tidied up.
   */
  lemma WaitsForDaemon(ne: NodeEnv, cfg: Config, s: State, i: nat)
    requires i < |s.handlers| && s.handlers[i].point.Waiting? && Complete(s.handlers[i].ask)
    requires s.handlers[i].point.call < |s.mount.calls|
    ensures var t, ask, c :=
        Apply(ne, cfg, s, Step(i, Proceeds)), s.handlers[i].ask, s.mount.calls[s.handlers[i].point.call];
      && t.mount == s.mount && |t.handlers| == |s.handlers|
      && (Busy(c) <==> t.handlers[i].point == s.handlers[i].point)
      && (AnsweredOk(c) <==> t.handlers[i].point == if ask.AskUnpublish? then Clean else Replied(Ok(())))
      && (!Busy(c) && !AnsweredOk(c) <==> t.handlers[i].point.Replied? && t.handlers[i].point.result.Err?)
      && ((c.MountCall? && c.mount.MountDropped?) || (c.UnmountCall? && c.unmount.UnmountDropped?) ==>
            t.handlers[i].point == Replied(Err(Unavailable)))
  {
  }

  /** Events of the daemon and of other processes keep the invariant. */
  lemma OutsideKeepsInv(ne: NodeEnv, cfg: Config, plan: Plan, initial: seq<Entry>, s: State, event: Event)
    requires ValidPlan(ne, plan, initial) && Inv(ne, plan, initial, s) && (event.Serve? || event.FilesChange?)
    ensures Inv(ne, plan, initial, Apply(ne, cfg, s, event))
  {
    var later := Apply(ne, cfg, s, event);
    match event {
      case Serve(k, turn) =>
        LI.ApplyKeepsInv(ne, cfg, plan, initial, s.mount, MI.Poll(k, turn));
        ServeProgresses(cfg, s.mount, k, turn);
      case FilesChange(inodes) => LI.ApplyKeepsInv(ne, cfg, plan, initial, s.mount, MI.FilesChange(inodes));
    }
    assert later.handlers == s.handlers && Progress(s.mount.calls, later.mount.calls);
    hide MI.Apply, LI.Inv, Progress, HandlerRight, HeldPath, OpenPath, Held, Open, Ordered;
    forall i | 0 <= i < |s.handlers| && Active(s.handlers[i])
      ensures HandlerRight(ne, plan, later.mount.calls, s.handlers[i])
    {
      ProgressKeepsRight(ne, plan, s.mount.calls, later.mount.calls, s.handlers[i]);
    }
    forall p | p in plan
      ensures HeldPath(s.handlers, p) ==> Held(later.mount.calls, p)
      ensures Open(later.mount.calls, p) ==> OpenPath(s.handlers, p)
    {
      ProgressKeepsMemory(s.mount.calls, later.mount.calls, p);
    }
  }

  lemma ArrivalOrdered(plan: Plan, s: State, ask: Ask)
    requires Ordered(s.handlers) && Allowed(plan, s, Arrive(ask)) && Complete(ask)
    ensures Ordered(s.handlers + [Handler(ask, LookUp)])
  {
    var handlers := s.handlers + [Handler(ask, LookUp)];
    forall i, j | 0 <= i < j < |handlers| && Active(handlers[i])
      ensures OwnPath(handlers[j].ask) != OwnPath(handlers[i].ask)
    {
      assert handlers[i] == s.handlers[i];
    }
    forall i | 0 <= i < |handlers| && Active(handlers[i]) && !Mounts(handlers[i].ask)
      ensures Unpublishing(handlers, OwnPath(handlers[i].ask).value)
    {
      var p := OwnPath(handlers[i].ask).value;
      assert Unpublishing(s.handlers, p);
      if i < |s.handlers| && PublishesFrom(ask, p) {
        HeldNotUnmounted(s.handlers, p, i);
      }
      forall j | 0 <= j < |handlers| && Active(handlers[j]) ensures !PublishesFrom(handlers[j].ask, p) {
        assert j < |s.handlers| ==> handlers[j] == s.handlers[j];
      }
    }
  }

  /** A call that may be made keeps the invariant. */
  lemma ArrivalKeepsInv(ne: NodeEnv, cfg: Config, plan: Plan, initial: seq<Entry>, s: State, ask: Ask)
    requires Inv(ne, plan, initial, s) && Allowed(plan, s, Arrive(ask))
    ensures Inv(ne, plan, initial, Apply(ne, cfg, s, Arrive(ask)))
  {
    var h := Handler(ask, if Complete(ask) then LookUp else Replied(Err(InvalidArgument)));
    var handlers := s.handlers + [h];
    assert handlers[..|s.handlers|] == s.handlers;
    if Complete(ask) {
      ArrivalOrdered(plan, s, ask);
      assert HandlerRight(ne, plan, s.mount.calls, h);
    } else {
      BadCallOrdered(s.handlers, h);
    }
    hide LI.Inv, HandlerRight, Ordered, Held, Open, AskInRole;
  }

  lemma BadCallOrdered(handlers: seq<Handler>, h: Handler)
    requires Ordered(handlers) && !Active(h) && OwnPath(h.ask).None?
    ensures Ordered(handlers + [h])
  {
    var more := handlers + [h];
    forall i | 0 <= i < |more| && Active(more[i]) && !Mounts(more[i].ask)
      ensures Unpublishing(more, OwnPath(more[i].ask).value)
    {
      assert Unpublishing(handlers, OwnPath(more[i].ask).value);
      forall j | 0 <= j < |more| && Active(more[j]) ensures j < |handlers| && more[j] == handlers[j] {
      }
    }
  }

  /** A step of a call keeps the order of the calls. */
  lemma StepOrdered(handlers: seq<Handler>, i: nat, h: Handler)
    requires Ordered(handlers) && i < |handlers| && Active(handlers[i]) && h.ask == handlers[i].ask
    ensures Ordered(handlers[i := h])
  {
    var later := handlers[i := h];
    forall a, b | 0 <= a < b < |later| && Active(later[a]) ensures OwnPath(later[b].ask) != OwnPath(later[a].ask) {
      assert Active(handlers[a]) && later[a].ask == handlers[a].ask && later[b].ask == handlers[b].ask;
    }
    forall a | 0 <= a < |later| && Active(later[a]) && !Mounts(later[a].ask)
      ensures Unpublishing(later, OwnPath(later[a].ask).value)
    {
      assert Active(handlers[a]) && later[a].ask == handlers[a].ask;
      forall j | 0 <= j < |later| && Active(later[j])
        ensures !PublishesFrom(later[j].ask, OwnPath(later[a].ask).value)
      {
        assert Active(handlers[j]) && later[j].ask == handlers[j].ask;
      }
    }
  }

  /** The step that sends a call's request. */
  predicate Sends(m: MI.State, h: Handler, move: Move) {
    Complete(h.ask) && h.point.Send? && move.Proceeds? && Ready(m.world, h.ask, h.point.device)
  }

  /** The request is one the daemon's caller may make. */
  lemma SendAllowed(ne: NodeEnv, plan: Plan, m: MI.State, h: Handler)
    requires HandlerRight(ne, plan, m.calls, h) && h.point.Send?
    requires forall p :: p in plan ==> plan[p].volume in ne.device
    ensures LI.Allowed(ne, plan, m, RequestOf(h.ask, h.point.device))
  {
    match h.ask
    case AskStage(r) => NodeRequestsInRole(ne, plan, r.volume, r.staging.value, r.staging.value, r.capability);
    case AskPublish(r) => NodeRequestsInRole(ne, plan, r.volume, r.staging.value, r.target.value, r.capability);
    case AskUnstage(_) =>
    case AskUnpublish(_) =>
  }

  /** Any other step leaves the daemon's requests alone, and what is true of the call stays true. */
  lemma QuietStep(ne: NodeEnv, cfg: Config, plan: Plan, m: MI.State, h: Handler, move: Move)
    requires Active(h) && HandlerRight(ne, plan, m.calls, h) && !Sends(m, h, move)
    ensures var (later, point) := StepHandler(ne, cfg, m, h, move);
      && later.calls == m.calls && (later == m || later == MI.Apply(cfg, m, MI.FilesChange(later.world.inodes)))
      && (Active(h.(point := point)) ==> HandlerRight(ne, plan, m.calls, h.(point := point)))
      && (RepliedOk(h.(point := point)) ==>
            var p := OwnPath(h.ask).value;
            if Mounts(h.ask) then Held(m.calls, p) else !Open(m.calls, p))
  {
    if h.point.Waiting? {
      LastRequestDecides(m.calls, h.point.call, OwnPath(h.ask).value);
    }
    hide Held, Open, Quiet, Unbound, AskInRole, MakeDirs, RemoveDir, Exists;
  }

  /** A step that sends no request keeps the invariant. */
  lemma QuietStepKeepsInv(ne: NodeEnv, cfg: Config, plan: Plan, initial: seq<Entry>, s: State, i: nat, move: Move)
    requires ValidPlan(ne, plan, initial) && Inv(ne, plan, initial, s)
    requires i < |s.handlers| && Active(s.handlers[i]) && !Sends(s.mount, s.handlers[i], move)
    ensures Inv(ne, plan, initial, Apply(ne, cfg, s, Step(i, move)))
  {
    var h := s.handlers[i];
    assert HandlerRight(ne, plan, s.mount.calls, h);
    QuietStep(ne, cfg, plan, s.mount, h, move);
    var later := Apply(ne, cfg, s, Step(i, move));
    var after := later.handlers[i];
    LI.ApplyKeepsInv(ne, cfg, plan, initial, s.mount, MI.FilesChange(later.mount.world.inodes));
    StepOrdered(s.handlers, i, after);
    hide StepHandler, MI.Apply, LI.Inv, Ordered, HandlerRight, HeldPath, OpenPath, Held, Open, Apply;
    assert HandlersRight(ne, plan, later) by {
      forall j | 0 <= j < |later.handlers| && Active(later.handlers[j])
        ensures HandlerRight(ne, plan, s.mount.calls, later.handlers[j])
      {
        assert j != i ==> later.handlers[j] == s.handlers[j];
      }
    }
    forall p | p in plan
      ensures HeldPath(later.handlers, p) ==> Held(s.mount.calls, p)
      ensures Open(s.mount.calls, p) ==> OpenPath(later.handlers, p)
    {
      KnownAfterStep(s.handlers, i, after, p);
    }
  }

  /** What is true of another call at work does not mind a new request, unless that takes its source away. */
  lemma OthersMindNot(ne: NodeEnv, plan: Plan, calls: seq<MI.Call>, c: MI.Call, h: Handler)
    requires HandlerRight(ne, plan, calls, h) && PathOf(c).Some? && PathOf(c) != OwnPath(h.ask)
    requires h.ask.AskPublish? && c.UnmountCall? ==> PathOf(c) != h.ask.publish.staging
    requires !Mounts(h.ask) ==> !BindsFrom(c, OwnPath(h.ask).value)
    requires !AnsweredOk(c)
    ensures HandlerRight(ne, plan, calls + [c], h)
  {
    assert (calls + [c])[..|calls|] == calls;
    hide AskInRole, BindsFrom;
  }

  /** The request a call sends, as the daemon holds it. */
  lemma Sent(ne: NodeEnv, cfg: Config, plan: Plan, m: MI.State, h: Handler) returns (c: MI.Call)
    requires HandlerRight(ne, plan, m.calls, h) && h.point.Send?
    ensures var later := MI.Apply(cfg, m, RequestOf(h.ask, h.point.device));
      later.calls == m.calls + [c] && later.world == m.world
    ensures PathOf(c) == OwnPath(h.ask) && (c.MountCall? <==> Mounts(h.ask)) && !AnsweredOk(c)
    ensures forall p :: BindsFrom(c, p) ==> PublishesFrom(h.ask, p)
  {
    c := MI.Apply(cfg, m, RequestOf(h.ask, h.point.device)).calls[|m.calls|];
    if h.ask.AskStage? {
      assert BIND_FLAG !in StageMount(h.ask.stage, h.point.device).flags;
    }
  }

  /** The handler that sends waits for its request, and the others stay right. */
  lemma SendKeepsHandlers(ne: NodeEnv, plan: Plan, s: State, i: nat, c: MI.Call, later: State)
    requires HandlersRight(ne, plan, s) && Ordered(s.handlers) && i < |s.handlers| && Active(s.handlers[i])
    requires PathOf(c).Some? && PathOf(c) == OwnPath(s.handlers[i].ask) && !AnsweredOk(c)
    requires c.MountCall? <==> Mounts(s.handlers[i].ask)
    requires forall p :: BindsFrom(c, p) ==> PublishesFrom(s.handlers[i].ask, p)
    requires later.mount.calls == s.mount.calls + [c]
    requires later.handlers == s.handlers[i := s.handlers[i].(point := Waiting(|s.mount.calls|))]
    ensures HandlersRight(ne, plan, later)
  {
    assert HandlerRight(ne, plan, s.mount.calls, s.handlers[i]);
    forall j | 0 <= j < |later.handlers| && Active(later.handlers[j])
      ensures HandlerRight(ne, plan, later.mount.calls, later.handlers[j])
    {
      if j != i {
        var h := s.handlers[j];
        assert HandlerRight(ne, plan, s.mount.calls, h);
        assert OwnPath(h.ask) != OwnPath(s.handlers[i].ask);
        hide HandlerRight, AskInRole;
        OthersMindNot(ne, plan, s.mount.calls, c, h);
      }
    }
  }

  /** The caller's knowledge stays the daemon's when a call sends its request. */
  lemma SendKeepsKnown(plan: Plan, s: State, i: nat, c: MI.Call, later: State)
    requires Known(plan, s) && Ordered(s.handlers) && i < |s.handlers| && Active(s.handlers[i])
    requires PathOf(c).Some? && PathOf(c) == OwnPath(s.handlers[i].ask) && !AnsweredOk(c)
    requires c.MountCall? <==> Mounts(s.handlers[i].ask)
    requires later.mount.calls == s.mount.calls + [c]
    requires later.handlers == s.handlers[i := s.handlers[i].(point := Waiting(|s.mount.calls|))]
    ensures Known(plan, later)
  {
    var d := PathOf(c).value;
    LastAskDecides(s.handlers, i, d);
    assert (s.mount.calls + [c])[..|s.mount.calls|] == s.mount.calls;
    forall p | p in plan
      ensures HeldPath(later.handlers, p) ==> Held(later.mount.calls, p)
      ensures Open(later.mount.calls, p) ==> OpenPath(later.handlers, p)
    {
      KnownAfterStep(s.handlers, i, later.handlers[i], p);
      KnownAfterStep(later.handlers, i, s.handlers[i], p);
    }
  }

  lemma SendKeepsInv(ne: NodeEnv, cfg: Config, plan: Plan, initial: seq<Entry>, s: State, i: nat, move: Move)
    requires ValidPlan(ne, plan, initial) && Inv(ne, plan, initial, s)
    requires i < |s.handlers| && Active(s.handlers[i]) && Sends(s.mount, s.handlers[i], move)
    ensures Inv(ne, plan, initial, Apply(ne, cfg, s, Step(i, move)))
  {
    var h := s.handlers[i];
    assert HandlerRight(ne, plan, s.mount.calls, h);
    SendAllowed(ne, plan, s.mount, h);
    LI.ApplyKeepsInv(ne, cfg, plan, initial, s.mount, RequestOf(h.ask, h.point.device));
    var c := Sent(ne, cfg, plan, s.mount, h);
    var later := Apply(ne, cfg, s, Step(i, move));
    assert later == State(MI.Apply(cfg, s.mount, RequestOf(h.ask, h.point.device)),
                          s.handlers[i := h.(point := Waiting(|s.mount.calls|))]);
    hide Apply, StepHandler, MI.Apply, LI.Inv, HandlerRight, Ordered, Known, HandlersRight;
    SendKeepsHandlers(ne, plan, s, i, c, later);
    SendKeepsKnown(plan, s, i, c, later);
    StepOrdered(s.handlers, i, later.handlers[i]);
  }

  lemma ApplyKeepsInv(ne: NodeEnv, cfg: Config, plan: Plan, initial: seq<Entry>, s: State, event: Event)
    requires ValidPlan(ne, plan, initial) && Inv(ne, plan, initial, s) && Allowed(plan, s, event)
    ensures Inv(ne, plan, initial, Apply(ne, cfg, s, event))
  {
    hide Inv, ValidPlan, Allowed, StepHandler;
    match event
    case Arrive(ask) => ArrivalKeepsInv(ne, cfg, plan, initial, s, ask);
    case Serve(_, _) => OutsideKeepsInv(ne, cfg, plan, initial, s, event);
    case FilesChange(_) => OutsideKeepsInv(ne, cfg, plan, initial, s, event);
    case Step(i, move) =>
      if i < |s.handlers| && Active(s.handlers[i]) {
        if Sends(s.mount, s.handlers[i], move) {
          SendKeepsInv(ne, cfg, plan, initial, s, i, move);
        } else {
          QuietStepKeepsInv(ne, cfg, plan, initial, s, i, move);
        }
      } else {
        EndedHandlerStays(ne, cfg, s, i, move);
      }
  }

  lemma EndedHandlerStays(ne: NodeEnv, cfg: Config, s: State, i: nat, move: Move)
    requires i < |s.handlers| ==> !Active(s.handlers[i])
    ensures Apply(ne, cfg, s, Step(i, move)) == s
  {
    if i < |s.handlers| {
      assert s.handlers[i := s.handlers[i]] == s.handlers;
    }
  }

  lemma {:induction false} RunKeepsInv(ne: NodeEnv, cfg: Config, plan: Plan, w: World, events: seq<Event>)
    requires ValidPlan(ne, plan, w.table) && WellBehaved(ne, cfg, plan, Start(w), events)
    ensures Inv(ne, plan, w.table, Run(ne, cfg, Start(w), events))
  {
    if events == [] {
      LI.RunKeepsInv(ne, cfg, plan, w, []);
    } else {
      var front := events[..|events| - 1];
      forall k | 0 <= k < |front| ensures Allowed(plan, Run(ne, cfg, Start(w), front[..k]), front[k]) {
        assert front[..k] == events[..k];
      }
      RunKeepsInv(ne, cfg, plan, w, front);
      ApplyKeepsInv(ne, cfg, plan, w.table, Run(ne, cfg, Start(w), front), events[|events| - 1]);
    }
  }

  /**
   * Lifecycle safety: in every state of every well-behaved run of the node handlers, whatever their calls and
   * the daemon's system calls came to, whatever was lost, dropped or retried, the mount table is the initial
   * one followed by managed paths mounted from their own volumes' devices. Each managed path is mounted at
   * most once and names the root of its own volume's filesystem while it is; and every path staged or
   * published with an OK reply, and not asked to be undone since, is mounted.
   */
  lemma LifecycleSafety(ne: NodeEnv, cfg: Config, plan: Plan, w: World, events: seq<Event>)
    requires ValidPlan(ne, plan, w.table) && WellBehaved(ne, cfg, plan, Start(w), events)
    ensures var s := Run(ne, cfg, Start(w), events);
      && Safe(ne, plan, w.table, s.mount.world.table)
      && forall p :: p in plan && HeldPath(s.handlers, p) ==> p in Mounted(s.mount.world.table)
  {
    RunKeepsInv(ne, cfg, plan, w, events);
    RightTableSafe(ne, plan, w.table, Run(ne, cfg, Start(w), events).mount.world.table);
    hide Safe;
  }

  /**
   * Teardown conservation: once every path that was ever asked to be staged or published has been unstaged or
   * unpublished with an OK reply since, the mount table is the initial one, entry for entry.
   */
  lemma TeardownConserves(ne: NodeEnv, cfg: Config, plan: Plan, w: World, events: seq<Event>)
    requires ValidPlan(ne, plan, w.table) && WellBehaved(ne, cfg, plan, Start(w), events)
    requires forall p :: p in plan ==> !OpenPath(Run(ne, cfg, Start(w), events).handlers, p)
    ensures Run(ne, cfg, Start(w), events).mount.world.table == w.table
  {
    RunKeepsInv(ne, cfg, plan, w, events);
    NothingManagedMounted(ne, plan, w.table, Run(ne, cfg, Start(w), events).mount.world.table);
  }
}
