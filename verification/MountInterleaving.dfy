/** Any number of mount and unmount requests interleaved step by step, while other processes change files. */
module MountInterleaving {
  import opened Status
  import opened MountTable
  import opened Mountd
  import opened MountRefinement

  datatype Call =
    | MountCall(req: MountRequest, mount: MountStage)
    | UnmountCall(path: Option<Path>, unmount: UnmountStage)

  datatype State = State(world: World, calls: seq<Call>)

  datatype Event =
    | NewMount(req: MountRequest)
    | NewUnmount(path: Option<Path>)
    | Poll(call: nat, turn: Turn)
    | FilesChange(inodes: map<Inode, Meta>)

  function Apply(cfg: Config, s: State, event: Event): State {
    match event
    case NewMount(req) => s.(calls := s.calls + [MountCall(req, ReadTable)])
    case NewUnmount(path) => s.(calls := s.calls + [UnmountCall(path, ReadTableU)])
    case FilesChange(inodes) => s.(world := s.world.(inodes := inodes))
    case Poll(i, turn) =>
      if i >= |s.calls| then s
      else
        match s.calls[i]
        case MountCall(req, stage) =>
          var (w, next) := StepMount(cfg, s.world, req, stage, turn);
          State(w, s.calls[i := MountCall(req, next)])
        case UnmountCall(path, stage) =>
          var (w, next) := StepUnmount(cfg, s.world, path, stage, turn);
          State(w, s.calls[i := UnmountCall(path, next)])
  }

  function Run(cfg: Config, s: State, events: seq<Event>): State {
    if events == [] then s else Apply(cfg, Run(cfg, s, events[..|events| - 1]), events[|events| - 1])
  }

  /** A mount request for `d` that has neither a reply nor been dropped. */
  predicate InFlight(c: Call, d: Path) {
    c.MountCall? && Dst(c.req) == Some(d) && !c.mount.MountEnded? && !c.mount.MountDropped?
  }

  /** A mount request for `d` whose snapshot lacked `d` and that has not mounted it yet. */
  predicate Unaware(c: Call, d: Path) {
    && c.MountCall? && Dst(c.req) == Some(d)
    && ((c.mount.Check? && d !in c.mount.mounts) || c.mount.CallMount?)
  }

  function CountInFlight(calls: seq<Call>, d: Path): nat {
    if calls == [] then 0
    else CountInFlight(calls[..|calls| - 1], d) + if InFlight(calls[|calls| - 1], d) then 1 else 0
  }

  function CountUnaware(calls: seq<Call>, d: Path): nat {
    if calls == [] then 0
    else CountUnaware(calls[..|calls| - 1], d) + if Unaware(calls[|calls| - 1], d) then 1 else 0
  }

  lemma {:induction false} UnawareUpdate(calls: seq<Call>, i: nat, c: Call, d: Path)
    requires i < |calls|
    ensures CountUnaware(calls[i := c], d) + (if Unaware(calls[i], d) then 1 else 0)
         == CountUnaware(calls, d) + (if Unaware(c, d) then 1 else 0)
  {
    var last := |calls| - 1;
    if i == last {
      assert calls[i := c][..last] == calls[..last];
    } else {
      UnawareUpdate(calls[..last], i, c, d);
      assert calls[i := c][..last] == calls[..last][i := c];
    }
  }

  lemma UnawareAppend(calls: seq<Call>, c: Call, d: Path)
    ensures CountUnaware(calls + [c], d) == CountUnaware(calls, d) + if Unaware(c, d) then 1 else 0
  {
    assert (calls + [c])[..|calls|] == calls;
  }

  lemma {:induction false} UnawareInFlight(calls: seq<Call>, d: Path)
    ensures CountUnaware(calls, d) <= CountInFlight(calls, d)
  {
    if calls != [] {
      UnawareInFlight(calls[..|calls| - 1], d);
    }
  }

  /** A request that got as far as mounting goes for its own `dst` with the flags it was asked for. */
  predicate CallOk(c: Call) {
    match c
    case MountCall(req, CallMount(src, dst, flags)) => Dst(req) == Some(dst) && FlagsAsRequested(flags, req.flags)
    case UnmountCall(path, CallUnmount(d)) => path == Some(d)
    case _ => true
  }

  /** An entry some mount request asked for. */
  ghost predicate Requested(s: State, e: Entry) {
    exists i :: 0 <= i < |s.calls| && s.calls[i].MountCall?
      && Dst(s.calls[i].req) == Some(e.dst) && FlagsAsRequested(e.flags, s.calls[i].req.flags)
  }

  ghost predicate Inv(initial: seq<Entry>, s: State) {
    && (forall i :: 0 <= i < |s.calls| ==> CallOk(s.calls[i]))
    && (forall e :: e in s.world.table ==> e in initial || Requested(s, e))
  }

  lemma RequestedStays(cfg: Config, s: State, event: Event, e: Entry)
    requires Requested(s, e)
    ensures Requested(Apply(cfg, s, event), e)
  {
    var i :| 0 <= i < |s.calls| && s.calls[i].MountCall? && Dst(s.calls[i].req) == Some(e.dst)
             && FlagsAsRequested(e.flags, s.calls[i].req.flags);
    var later := Apply(cfg, s, event);
    assert later.calls[i].MountCall? && later.calls[i].req == s.calls[i].req;
  }

  /** What one poll of a mount request does to the table: nothing, or its one entry. */
  lemma PolledMount(cfg: Config, s: State, i: nat, turn: Turn)
    requires i < |s.calls| && s.calls[i].MountCall? && CallOk(s.calls[i])
    ensures var later := Apply(cfg, s, Poll(i, turn));
      && later.calls[i].MountCall? && later.calls[i].req == s.calls[i].req && CallOk(later.calls[i])
      && (later.world.table == s.world.table
          || (&& s.calls[i].mount.CallMount? && later.calls[i].mount.CallChown?
              && exists root ::
                   later.world.table == s.world.table + [Entry(root, s.calls[i].mount.dst, s.calls[i].mount.flags)]))
  {
    CollectFlagsExact(s.calls[i].req.flags);
  }

  lemma PolledUnmount(cfg: Config, s: State, i: nat, turn: Turn)
    requires i < |s.calls| && s.calls[i].UnmountCall? && CallOk(s.calls[i])
    ensures var later := Apply(cfg, s, Poll(i, turn));
      && later.calls[i].UnmountCall? && later.calls[i].path == s.calls[i].path && CallOk(later.calls[i])
      && (later.world.table == s.world.table
          || (s.calls[i].unmount.CallUnmount? && later.world.table == Pop(s.world.table, s.calls[i].unmount.d)))
  {
  }

  lemma ApplyKeepsInv(cfg: Config, initial: seq<Entry>, s: State, event: Event)
    requires Inv(initial, s)
    ensures Inv(initial, Apply(cfg, s, event))
  {
    var later := Apply(cfg, s, event);
    if event.Poll? && event.call < |s.calls| {
      if s.calls[event.call].MountCall? {
        PolledMount(cfg, s, event.call, event.turn);
      } else {
        PolledUnmount(cfg, s, event.call, event.turn);
      }
    }
    forall e | e in later.world.table ensures e in initial || Requested(later, e) {
      if e in s.world.table {
        if Requested(s, e) {
          RequestedStays(cfg, s, event, e);
        }
      } else if s.calls[event.call].MountCall? {
        assert e == later.world.table[|s.world.table|];
        assert CallOk(s.calls[event.call]);
        assert later.calls[event.call].MountCall? && later.calls[event.call].req == s.calls[event.call].req;
      } else {
        PopKeepsEntries(s.world.table, s.calls[event.call].unmount.d, e);
      }
    }
  }

  /**
   * Mount flags over every interleaved run: each entry the daemon added was asked for by some request for
   * that path, and carries NODEV and NOSUID, BIND iff that request asked for a bind, and RDONLY iff it
   * asked for read-only, whatever the order or repetition of its flags.
   */
  lemma {:induction false} FlagsOverRuns(cfg: Config, w: World, events: seq<Event>)
    ensures Inv(w.table, Run(cfg, State(w, []), events))
  {
    if events != [] {
      var front := events[..|events| - 1];
      FlagsOverRuns(cfg, w, front);
      ApplyKeepsInv(cfg, w.table, Run(cfg, State(w, []), front), events[|events| - 1]);
    }
  }

  /** Mounts at `d` plus the requests about to mount there without knowing. */
  function Exposure(s: State, d: Path): nat {
    |At(s.world.table, d)| + CountUnaware(s.calls, d)
  }

  /** At most `n` mount requests for `d` are in flight in every state of the run. */
  ghost predicate AtMostInFlight(cfg: Config, s0: State, events: seq<Event>, n: nat, d: Path) {
    forall k :: 0 <= k <= |events| ==> CountInFlight(Run(cfg, s0, events[..k]).calls, d) <= n
  }

  lemma UnmountLowersExposure(cfg: Config, s: State, i: nat, turn: Turn, d: Path)
    requires i < |s.calls| && s.calls[i].UnmountCall? && CallOk(s.calls[i])
    ensures Exposure(Apply(cfg, s, Poll(i, turn)), d) <= Exposure(s, d)
  {
    var later := Apply(cfg, s, Poll(i, turn));
    PolledUnmount(cfg, s, i, turn);
    UnawareUpdate(s.calls, i, later.calls[i], d);
    if later.world.table != s.world.table {
      PopAt(s.world.table, s.calls[i].unmount.d, d);
    }
  }

  /** A mount step raises the exposure of `d` only by a snapshot taken while `d` is not mounted. */
  lemma MountStepExposure(cfg: Config, s: State, i: nat, turn: Turn, d: Path)
    requires i < |s.calls| && s.calls[i].MountCall? && CallOk(s.calls[i])
    ensures var later := Apply(cfg, s, Poll(i, turn));
      Exposure(later, d) <= Exposure(s, d) || (At(s.world.table, d) == [] && later.world.table == s.world.table)
  {
    var later := Apply(cfg, s, Poll(i, turn));
    PolledMount(cfg, s, i, turn);
    UnawareUpdate(s.calls, i, later.calls[i], d);
    MountedIffAt(s.world.table, d);
    if later.world.table != s.world.table {
      TableAppend(s.world.table, later.world.table[|s.world.table|]);
    }
  }

  /** One event keeps the exposure of `d` within the number of mount requests for it allowed in flight. */
  lemma StepExposure(cfg: Config, initial: seq<Entry>, s: State, event: Event, n: nat, d: Path)
    requires Inv(initial, s) && Exposure(s, d) <= n && CountInFlight(Apply(cfg, s, event).calls, d) <= n
    ensures Exposure(Apply(cfg, s, event), d) <= n
  {
    UnawareInFlight(Apply(cfg, s, event).calls, d);
    match event
    case NewMount(req) => UnawareAppend(s.calls, MountCall(req, ReadTable), d);
    case NewUnmount(path) => UnawareAppend(s.calls, UnmountCall(path, ReadTableU), d);
    case FilesChange(_) =>
    case Poll(i, turn) =>
      if i < |s.calls| {
        assert CallOk(s.calls[i]);
        if s.calls[i].MountCall? {
          MountStepExposure(cfg, s, i, turn, d);
        } else {
          UnmountLowersExposure(cfg, s, i, turn, d);
        }
      }
  }

  /**
   * The stacking bound, path by path: if at most `n` mounts are at `d` initially and at most `n` mount
   * requests for `d` are in flight throughout, then in every state of every interleaving the mounts at `d`
   * and the requests about to mount there without knowing are at most `n` together.
   */
  lemma {:induction false} StackingBound(cfg: Config, w: World, events: seq<Event>, n: nat, d: Path)
    requires |At(w.table, d)| <= n && AtMostInFlight(cfg, State(w, []), events, n, d)
    ensures Exposure(Run(cfg, State(w, []), events), d) <= n
  {
    var s0 := State(w, []);
    if events != [] {
      var front, event := events[..|events| - 1], events[|events| - 1];
      forall k | 0 <= k <= |front| ensures CountInFlight(Run(cfg, s0, front[..k]).calls, d) <= n {
        assert front[..k] == events[..k];
      }
      StackingBound(cfg, w, front, n, d);
      FlagsOverRuns(cfg, w, front);
      assert events[..|events|] == events;
      StepExposure(cfg, w.table, Run(cfg, s0, front), event, n, d);
    }
  }

  /** One mount request for a path at a time never stacks it, whatever happens at other paths. */
  lemma SerialMountsNeverStack(cfg: Config, w: World, events: seq<Event>, d: Path)
    requires |At(w.table, d)| <= 1 && AtMostInFlight(cfg, State(w, []), events, 1, d)
    ensures |At(Run(cfg, State(w, []), events).world.table, d)| <= 1
  {
    StackingBound(cfg, w, events, 1, d);
  }

  /** A request that is dropped, or has ended, does nothing more, and a dropped one is never answered. */
  lemma DroppedDoesNothing(cfg: Config, s: State, i: nat, turn: Turn)
    requires i < |s.calls|
    ensures var t := Apply(cfg, s, Poll(i, Drops)); t.world == s.world && |t.calls| == |s.calls|
    ensures var t := Apply(cfg, Apply(cfg, s, Poll(i, Drops)), Poll(i, turn));
      && t == Apply(cfg, s, Poll(i, Drops))
      && match (s.calls[i], t.calls[i])
         case (MountCall(_, was), MountCall(_, now)) => if was.MountEnded? then now == was else now == MountDropped
         case (UnmountCall(_, was), UnmountCall(_, now)) =>
           if was.UnmountEnded? then now == was else now == UnmountDropped
         case _ => false
  {
    var t := Apply(cfg, s, Poll(i, Drops));
    assert t.calls[i := t.calls[i]] == t.calls;
  }

  lemma RunSnoc(cfg: Config, s: State, events: seq<Event>, event: Event)
    ensures Run(cfg, s, events + [event]) == Apply(cfg, Run(cfg, s, events), event)
  {
    assert (events + [event])[..|events|] == events;
  }

  lemma {:induction false} RunConcat(cfg: Config, s: State, a: seq<Event>, b: seq<Event>)
    ensures Run(cfg, s, a + b) == Run(cfg, Run(cfg, s, a), b)
  {
    if b == [] {
      assert a + b == a;
    } else {
      RunConcat(cfg, s, a, b[..|b| - 1]);
      assert (a + b)[..|a + b| - 1] == a + b[..|b| - 1];
    }
  }

  /** A mount request that arrives and is then served alone, one system call after another. */
  function MountEvents(i: nat, req: MountRequest, faults: Faults): seq<Event> {
    [NewMount(req)] + [Poll(i, TurnOf(faults.table))] + [Poll(i, Goes)] + [Poll(i, TurnOf(faults.call))]
    + [Poll(i, TurnOf(faults.chown))]
  }

  function UnmountEvents(i: nat, path: Option<Path>, faults: Faults): seq<Event> {
    [NewUnmount(path)] + [Poll(i, TurnOf(faults.table))] + [Poll(i, Goes)] + [Poll(i, TurnOf(faults.call))]
  }

  /** A mount request served alone, whatever came before it, is the run that polls only it. */
  lemma MountAloneIsRun(cfg: Config, s: State, req: MountRequest, faults: Faults)
    ensures var (later, end) := MountAlone(cfg, s.world, req, faults);
      Run(cfg, s, MountEvents(|s.calls|, req, faults)) == State(later, s.calls + [MountCall(req, MountEnded(end))])
  {
    hide StepMount, MountAlone;
    var i, e0 := |s.calls|, [NewMount(req)];
    var e1 := e0 + [Poll(i, TurnOf(faults.table))];
    var e2 := e1 + [Poll(i, Goes)];
    var e3 := e2 + [Poll(i, TurnOf(faults.call))];
    assert Run(cfg, s, []) == s && [] + [NewMount(req)] == e0;
    RunSnoc(cfg, s, [], NewMount(req));
    RunSnoc(cfg, s, e0, Poll(i, TurnOf(faults.table)));
    RunSnoc(cfg, s, e1, Poll(i, Goes));
    RunSnoc(cfg, s, e2, Poll(i, TurnOf(faults.call)));
    RunSnoc(cfg, s, e3, Poll(i, TurnOf(faults.chown)));
    MountAloneEnds(cfg, s.world, req, faults);
    hide Run, TurnOf;
    forall c, d ensures (s.calls + [c])[i := d] == s.calls + [d] {
    }
  }

  lemma MountAloneEnds(cfg: Config, w: World, req: MountRequest, faults: Faults)
    ensures var (w1, s1) := StepMount(cfg, w, req, ReadTable, TurnOf(faults.table));
      var (w2, s2) := StepMount(cfg, w1, req, s1, Goes);
      var (w3, s3) := StepMount(cfg, w2, req, s2, TurnOf(faults.call));
      var (w4, s4) := StepMount(cfg, w3, req, s3, TurnOf(faults.chown));
      s4.MountEnded? && MountAlone(cfg, w, req, faults) == (w4, s4.end)
  {
  }

  /** The same for an unmount request. */
  lemma UnmountAloneIsRun(cfg: Config, s: State, path: Option<Path>, faults: Faults)
    ensures var (later, end) := UnmountAlone(cfg, s.world, path, faults);
      Run(cfg, s, UnmountEvents(|s.calls|, path, faults))
        == State(later, s.calls + [UnmountCall(path, UnmountEnded(end))])
  {
    hide StepUnmount, UnmountAlone;
    var i, e0 := |s.calls|, [NewUnmount(path)];
    var e1 := e0 + [Poll(i, TurnOf(faults.table))];
    var e2 := e1 + [Poll(i, Goes)];
    assert Run(cfg, s, []) == s && [] + [NewUnmount(path)] == e0;
    RunSnoc(cfg, s, [], NewUnmount(path));
    RunSnoc(cfg, s, e0, Poll(i, TurnOf(faults.table)));
    RunSnoc(cfg, s, e1, Poll(i, Goes));
    RunSnoc(cfg, s, e2, Poll(i, TurnOf(faults.call)));
    UnmountAloneEnds(cfg, s.world, path, faults);
    hide Run, TurnOf;
    forall c, d ensures (s.calls + [c])[i := d] == s.calls + [d] {
    }
  }

  lemma UnmountAloneEnds(cfg: Config, w: World, path: Option<Path>, faults: Faults)
    ensures var (w1, s1) := StepUnmount(cfg, w, path, ReadTableU, TurnOf(faults.table));
      var (w2, s2) := StepUnmount(cfg, w1, path, s1, Goes);
      var (w3, s3) := StepUnmount(cfg, w2, path, s2, TurnOf(faults.call));
      s3.UnmountEnded? && UnmountAlone(cfg, w, path, faults) == (w3, s3.end)
  {
  }
}
