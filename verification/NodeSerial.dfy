/** The serial node calls, and so the handlers as methods, are runs of the interleaved node machine. */
module NodeSerial {
  import opened Status
  import opened MountTable
  import opened Mountd
  import opened Node
  import opened Lifecycle
  import opened NodeInterleaving
  import MI = MountInterleaving

  lemma {:induction false} RunConcat(ne: NodeEnv, cfg: Config, s: State, a: seq<Event>, b: seq<Event>)
    ensures Run(ne, cfg, s, a + b) == Run(ne, cfg, Run(ne, cfg, s, a), b)
  {
    if b == [] {
      assert a + b == a;
    } else {
      RunConcat(ne, cfg, s, a, b[..|b| - 1]);
      assert (a + b)[..|a + b| - 1] == a + b[..|b| - 1];
    }
  }

  lemma RunFront(ne: NodeEnv, cfg: Config, s: State, event: Event, rest: seq<Event>)
    ensures Run(ne, cfg, s, [event] + rest) == Run(ne, cfg, Apply(ne, cfg, s, event), rest)
  {
    RunConcat(ne, cfg, s, [event], rest);
    hide Apply;
    assert [event][..0] == [] && Run(ne, cfg, s, []) == s;
  }

  /** The serial node call an ask stands for. */
  function Outcome(ne: NodeEnv, cfg: Config, w: World, ask: Ask, f: NodeFaults): (World, Result<()>) {
    match ask
    case AskStage(r) => Node.Stage(ne, cfg, w, r, f)
    case AskUnstage(r) => Node.Unstage(ne, cfg, w, r, f)
    case AskPublish(r) => Node.Publish(ne, cfg, w, r, f)
    case AskUnpublish(r) => Node.Unpublish(ne, cfg, w, r, f)
  }

  function MoveOf(fails: bool, code: Code): Move {
    if fails then Errs(code) else Proceeds
  }

  /** The steps up to the request, with the faults of the serial call. */
  function Approach(i: nat, ask: Ask, f: NodeFaults): seq<Event> {
    [Arrive(ask)] + ([Step(i, if f.lookup.Some? then Errs(f.lookup.value) else Proceeds)]
      + ((if ask.AskPublish? then [Step(i, MoveOf(f.mkdir, Internal))] else []) + [Step(i, Proceeds)]))
  }

  /** The daemon's steps. */
  function Service(k: nat, faults: Faults): seq<Event> {
    [Serve(k, TurnOf(faults.table))] + ([Serve(k, Goes)] + ([Serve(k, TurnOf(faults.call))]
      + [Serve(k, TurnOf(faults.chown))]))
  }

  /** The steps from the daemon's answer on. */
  function Finish(i: nat, ask: Ask, f: NodeFaults): seq<Event> {
    [Step(i, MoveOf(f.lost, Unavailable))]
    + (if ask.AskUnpublish? then [Step(i, MoveOf(f.rmdir, Internal))] else [])
  }

  /** What a call comes to before its request: the device, or an error, and the host by then. */
  function Prepared(ne: NodeEnv, w: World, ask: Ask, f: NodeFaults): (World, Result<Path>) {
    if !Complete(ask) then (w, Err(InvalidArgument))
    else
      match BlockPath(ne, VolumeOf(ask), f.lookup)
      case Err(code) => (w, Err(code))
      case Ok(device) =>
        match (if ask.AskPublish? then TargetMade(ne, w, OwnPath(ask), f.mkdir) else Some(w))
        case None => (w, Err(Internal))
        case Some(made) => (made, if Ready(made, ask, device) then Ok(device) else Err(FailedPrecondition))
  }

  /** What the daemon does with the request, and the handler with its answer. */
  function Finished(cfg: Config, w: World, ask: Ask, device: Path, f: NodeFaults): (World, Result<()>)
    requires Complete(ask)
  {
    var (later, reply) :=
      match RequestOf(ask, device)
      case NewMount(req) => var (later, end) := MountAlone(cfg, w, req, f.mountd); (later, MountReply(end))
      case NewUnmount(path) => var (later, end) := UnmountAlone(cfg, w, path, f.mountd); (later, UnmountReply(end))
      case _ => (w, Ok(()));
    if ask.AskUnpublish? && Answer(reply, f.lost).Ok? then (RemoveDir(later, OwnPath(ask).value, f.rmdir), Ok(()))
    else (later, Answer(reply, f.lost))
  }

  lemma OutcomeSplits(ne: NodeEnv, cfg: Config, w: World, ask: Ask, f: NodeFaults)
    ensures Outcome(ne, cfg, w, ask, f) == match Prepared(ne, w, ask, f)
      case (made, Ok(device)) => Finished(cfg, made, ask, device, f)
      case (made, Err(code)) => (made, Err(code))
  {
    hide MountAlone, UnmountAlone, MakeDirs, RemoveDir, Exists;
  }

  lemma MadeKeepsTable(ne: NodeEnv, w: World, ask: Ask, fails: bool)
    ensures TargetMade(ne, w, OwnPath(ask), fails).Some? ==>
      w.(inodes := TargetMade(ne, w, OwnPath(ask), fails).value.inodes) == TargetMade(ne, w, OwnPath(ask), fails).value
  {
    if OwnPath(ask).Some? {
      MakeDirsKeepsTable(w, OwnPath(ask).value, ne.self);
    }
  }

  /** A step of the newest handler. */
  function StepNewest(ne: NodeEnv, cfg: Config, m: MI.State, h: Handler, move: Move): (MI.State, Handler) {
    if !Complete(h.ask) then (m, h)
    else var (later, point) := StepHandler(ne, cfg, m, h, move); (later, h.(point := point))
  }

  lemma StepNewestApplies(ne: NodeEnv, cfg: Config, m: MI.State, older: seq<Handler>, h: Handler, move: Move)
    ensures var (later, next) := StepNewest(ne, cfg, m, h, move);
      Apply(ne, cfg, State(m, older + [h]), Step(|older|, move)) == State(later, older + [next])
  {
    hide StepHandler;
  }

  /** The steps of a call alone up to its request, on the call itself. */
  lemma ApproachSteps(ne: NodeEnv, cfg: Config, m: MI.State, ask: Ask, f: NodeFaults)
    ensures var h0 := Handler(ask, if Complete(ask) then LookUp else Replied(Err(InvalidArgument)));
      var (m1, h1) := StepNewest(ne, cfg, m, h0, if f.lookup.Some? then Errs(f.lookup.value) else Proceeds);
      var (m2, h2) := if ask.AskPublish? then StepNewest(ne, cfg, m1, h1, MoveOf(f.mkdir, Internal)) else (m1, h1);
      var (m3, h3) := StepNewest(ne, cfg, m2, h2, Proceeds);
      var (made, device) := Prepared(ne, m.world, ask, f);
      (m3, h3) == match device
        case Ok(d) => (MI.Apply(cfg, m.(world := made), RequestOf(ask, d)), Handler(ask, Waiting(|m.calls|)))
        case Err(code) => (m.(world := made), Handler(ask, Replied(Err(code))))
  {
    MadeKeepsTable(ne, m.world, ask, f.mkdir);
    hide TargetMade, Ready, RequestOf, BlockPath, Exists, RemoveDir;
  }

  /** A call alone up to its request. */
  lemma ApproachRun(ne: NodeEnv, cfg: Config, s: State, ask: Ask, f: NodeFaults)
    ensures var (made, device) := Prepared(ne, s.mount.world, ask, f);
      var m := s.mount.(world := made);
      Run(ne, cfg, s, Approach(|s.handlers|, ask, f)) == match device
        case Ok(d) =>
          State(MI.Apply(cfg, m, RequestOf(ask, d)), s.handlers + [Handler(ask, Waiting(|s.mount.calls|))])
        case Err(code) => State(m, s.handlers + [Handler(ask, Replied(Err(code)))])
  {
    ApproachSteps(ne, cfg, s.mount, ask, f);
    hide StepNewest, Prepared, RequestOf, MI.Apply;
    var i, older := |s.handlers|, s.handlers;
    var look := if f.lookup.Some? then Errs(f.lookup.value) else Proceeds;
    var mkdir := if ask.AskPublish? then [Step(i, MoveOf(f.mkdir, Internal))] else [];
    var h0 := Handler(ask, if Complete(ask) then LookUp else Replied(Err(InvalidArgument)));
    RunFront(ne, cfg, s, Arrive(ask), [Step(i, look)] + (mkdir + [Step(i, Proceeds)]));
    assert Apply(ne, cfg, s, Arrive(ask)) == State(s.mount, older + [h0]);
    hide Apply, Run;
    RunFront(ne, cfg, State(s.mount, older + [h0]), Step(i, look), mkdir + [Step(i, Proceeds)]);
    StepNewestApplies(ne, cfg, s.mount, older, h0, look);
    var (m1, h1) := StepNewest(ne, cfg, s.mount, h0, look);
    if ask.AskPublish? {
      RunFront(ne, cfg, State(m1, older + [h1]), mkdir[0], [Step(i, Proceeds)]);
      StepNewestApplies(ne, cfg, m1, older, h1, MoveOf(f.mkdir, Internal));
    } else {
      assert mkdir + [Step(i, Proceeds)] == [Step(i, Proceeds)];
    }
    var (m2, h2) := if ask.AskPublish? then StepNewest(ne, cfg, m1, h1, MoveOf(f.mkdir, Internal)) else (m1, h1);
    RunOne(ne, cfg, State(m2, older + [h2]), Step(i, Proceeds));
    StepNewestApplies(ne, cfg, m2, older, h2, Proceeds);
  }

  lemma RunOne(ne: NodeEnv, cfg: Config, s: State, event: Event)
    ensures Run(ne, cfg, s, [event]) == Apply(ne, cfg, s, event)
  {
    hide Apply;
    assert [event][..0] == [] && Run(ne, cfg, s, []) == s;
  }

  /** The daemon's steps are its own run. */
  lemma ServiceRun(ne: NodeEnv, cfg: Config, s: State, k: nat, faults: Faults)
    ensures Run(ne, cfg, s, Service(k, faults))
         == s.(mount := MI.Apply(cfg, MI.Apply(cfg, MI.Apply(cfg, MI.Apply(cfg, s.mount,
              MI.Poll(k, TurnOf(faults.table))), MI.Poll(k, Goes)), MI.Poll(k, TurnOf(faults.call))),
              MI.Poll(k, TurnOf(faults.chown))))
  {
    hide MI.Apply, TurnOf;
    var e0, e1, e2, e3 :=
      Serve(k, TurnOf(faults.table)), Serve(k, Goes), Serve(k, TurnOf(faults.call)), Serve(k, TurnOf(faults.chown));
    RunFront(ne, cfg, s, e0, [e1] + ([e2] + [e3]));
    var s1 := Apply(ne, cfg, s, e0);
    RunFront(ne, cfg, s1, e1, [e2] + [e3]);
    var s2 := Apply(ne, cfg, s1, e1);
    RunFront(ne, cfg, s2, e2, [e3]);
    var s3 := Apply(ne, cfg, s2, e2);
    RunOne(ne, cfg, s3, e3);
  }

  /** From the daemon's answer on, on the call itself. */
  lemma FinishRun(ne: NodeEnv, cfg: Config, m: MI.State, older: seq<Handler>, h: Handler, f: NodeFaults)
    ensures var (m1, h1) := StepNewest(ne, cfg, m, h, MoveOf(f.lost, Unavailable));
      var (m2, h2) :=
        if h.ask.AskUnpublish? then StepNewest(ne, cfg, m1, h1, MoveOf(f.rmdir, Internal)) else (m1, h1);
      Run(ne, cfg, State(m, older + [h]), Finish(|older|, h.ask, f)) == State(m2, older + [h2])
  {
    hide StepNewest, Apply, Run;
    var i := |older|;
    var first, second := Step(i, MoveOf(f.lost, Unavailable)), Step(i, MoveOf(f.rmdir, Internal));
    StepNewestApplies(ne, cfg, m, older, h, MoveOf(f.lost, Unavailable));
    var (m1, h1) := StepNewest(ne, cfg, m, h, MoveOf(f.lost, Unavailable));
    if h.ask.AskUnpublish? {
      RunFront(ne, cfg, State(m, older + [h]), first, [second]);
      RunOne(ne, cfg, State(m1, older + [h1]), second);
      StepNewestApplies(ne, cfg, m1, older, h1, MoveOf(f.rmdir, Internal));
    } else {
      assert [first] + [] == [first];
      RunOne(ne, cfg, State(m, older + [h]), first);
    }
  }

  /** The request served alone, and answered. */
  lemma ServedAlone(ne: NodeEnv, cfg: Config, m: MI.State, ask: Ask, device: Path, f: NodeFaults)
    requires Complete(ask)
    ensures var k := |m.calls|;
      var served := MI.Apply(cfg, MI.Apply(cfg, MI.Apply(cfg, MI.Apply(cfg, MI.Apply(cfg, m, RequestOf(ask, device)),
              MI.Poll(k, TurnOf(f.mountd.table))), MI.Poll(k, Goes)), MI.Poll(k, TurnOf(f.mountd.call))),
              MI.Poll(k, TurnOf(f.mountd.chown)));
      && |served.calls| == k + 1
      && (match RequestOf(ask, device)
          case NewMount(req) =>
            var (later, end) := MountAlone(cfg, m.world, req, f.mountd);
            served.world == later && served.calls[k] == MI.MountCall(req, MountEnded(end))
          case NewUnmount(path) =>
            var (later, end) := UnmountAlone(cfg, m.world, path, f.mountd);
            served.world == later && served.calls[k] == MI.UnmountCall(path, UnmountEnded(end))
          case _ => true)
  {
    var k, request := |m.calls|, RequestOf(ask, device);
    var polls := [MI.Poll(k, TurnOf(f.mountd.table)), MI.Poll(k, Goes), MI.Poll(k, TurnOf(f.mountd.call))];
    var last := MI.Poll(k, TurnOf(f.mountd.chown));
    FourPolls(cfg, m, request, polls[0], polls[1], polls[2]);
    var e3 := [request] + [polls[0]] + [polls[1]] + [polls[2]];
    MI.RunSnoc(cfg, m, e3, last);
    match request
    case NewMount(req) => MI.MountAloneIsRun(cfg, m, req, f.mountd);
      hide MI.Apply, MI.Run, MountAlone;
    case NewUnmount(path) =>
      MI.UnmountAloneIsRun(cfg, m, path, f.mountd);
      PollEnded(cfg, MI.Run(cfg, m, e3), k, TurnOf(f.mountd.chown));
      hide MI.Apply, MI.Run, UnmountAlone;
  }

  lemma FourPolls(cfg: Config, m: MI.State, a: MI.Event, b: MI.Event, c: MI.Event, d: MI.Event)
    ensures MI.Run(cfg, m, [a] + [b] + [c] + [d])
         == MI.Apply(cfg, MI.Apply(cfg, MI.Apply(cfg, MI.Apply(cfg, m, a), b), c), d)
  {
    hide MI.Apply;
    assert [] + [a] == [a] && MI.Run(cfg, m, []) == m;
    MI.RunSnoc(cfg, m, [], a);
    MI.RunSnoc(cfg, m, [a], b);
    MI.RunSnoc(cfg, m, [a] + [b], c);
    MI.RunSnoc(cfg, m, [a] + [b] + [c], d);
  }

  /** The handler's last steps, once the daemon has answered. */
  lemma FinishSteps(ne: NodeEnv, cfg: Config, m: MI.State, ask: Ask, k: nat, f: NodeFaults, reply: Result<()>)
    requires Complete(ask) && k < |m.calls| && AnswerOf(m.calls[k]) == Some(reply)
    ensures var (m1, h1) := StepNewest(ne, cfg, m, Handler(ask, Waiting(k)), MoveOf(f.lost, Unavailable));
      var (m2, h2) := if ask.AskUnpublish? then StepNewest(ne, cfg, m1, h1, MoveOf(f.rmdir, Internal)) else (m1, h1);
      if ask.AskUnpublish? && Answer(reply, f.lost).Ok?
      then m2.world == RemoveDir(m.world, OwnPath(ask).value, f.rmdir) && h2 == Handler(ask, Replied(Ok(())))
      else m2.world == m.world && h2 == Handler(ask, Replied(Answer(reply, f.lost)))
  {
    hide AnswerOf;
  }

  /** A call that never got to its request is done. */
  lemma NothingToServe(ne: NodeEnv, cfg: Config, m: MI.State, older: seq<Handler>, ask: Ask, code: Code, f: NodeFaults)
    ensures var s := State(m, older + [Handler(ask, Replied(Err(code)))]);
      Run(ne, cfg, s, Service(|m.calls|, f.mountd) + Finish(|older|, ask, f)) == s
  {
    var k, h := |m.calls|, Handler(ask, Replied(Err(code)));
    var s := State(m, older + [h]);
    RunConcat(ne, cfg, s, Service(k, f.mountd), Finish(|older|, ask, f));
    ServiceRun(ne, cfg, s, k, f.mountd);
    PollEnded(cfg, m, k, TurnOf(f.mountd.table));
    PollEnded(cfg, m, k, Goes);
    PollEnded(cfg, m, k, TurnOf(f.mountd.call));
    PollEnded(cfg, m, k, TurnOf(f.mountd.chown));
    FinishRun(ne, cfg, m, older, h, f);
    hide Run, MI.Apply;
  }

  /** A call whose request went out is served and answered. */
  lemma ServeAndFinish(ne: NodeEnv, cfg: Config, m: MI.State, older: seq<Handler>, ask: Ask, device: Path,
                       f: NodeFaults)
    requires Complete(ask)
    ensures var s := State(MI.Apply(cfg, m, RequestOf(ask, device)), older + [Handler(ask, Waiting(|m.calls|))]);
      var t := Run(ne, cfg, s, Service(|m.calls|, f.mountd) + Finish(|older|, ask, f));
      var (later, reply) := Finished(cfg, m.world, ask, device, f);
      t.mount.world == later && t.handlers == older + [Handler(ask, Replied(reply))]
  {
    hide Run, MI.Apply, StepNewest, MountAlone, UnmountAlone, RemoveDir, Service, Finish;
    var k, h := |m.calls|, Handler(ask, Waiting(|m.calls|));
    var s := State(MI.Apply(cfg, m, RequestOf(ask, device)), older + [h]);
    RunConcat(ne, cfg, s, Service(k, f.mountd), Finish(|older|, ask, f));
    ServiceRun(ne, cfg, s, k, f.mountd);
    ServedAlone(ne, cfg, m, ask, device, f);
    var served := Run(ne, cfg, s, Service(k, f.mountd)).mount;
    FinishRun(ne, cfg, served, older, h, f);
    FinishSteps(ne, cfg, served, ask, k, f, AnswerOf(served.calls[k]).value);
  }

  /**
   * The serial node calls are runs of the machine: a call that arrives and is then served alone, with the same
   * faults, leaves the host and the reply of its serial form, in whatever state it arrives.
   */
  lemma NodeCallIsRun(ne: NodeEnv, cfg: Config, s: State, ask: Ask, f: NodeFaults)
    ensures var i, k := |s.handlers|, |s.mount.calls|;
      var t := Run(ne, cfg, s, Approach(i, ask, f) + (Service(k, f.mountd) + Finish(i, ask, f)));
      var (later, reply) := Outcome(ne, cfg, s.mount.world, ask, f);
      t.mount.world == later && t.handlers == s.handlers + [Handler(ask, Replied(reply))]
  {
    hide Run, Finished, Outcome, Approach, Service, Finish, RequestOf, MI.Apply;
    var i, k := |s.handlers|, |s.mount.calls|;
    RunConcat(ne, cfg, s, Approach(i, ask, f), Service(k, f.mountd) + Finish(i, ask, f));
    ApproachRun(ne, cfg, s, ask, f);
    OutcomeSplits(ne, cfg, s.mount.world, ask, f);
    var (made, device) := Prepared(ne, s.mount.world, ask, f);
    var m := s.mount.(world := made);
    match device
    case Ok(d) => ServeAndFinish(ne, cfg, m, s.handlers, ask, d, f);
    case Err(code) => NothingToServe(ne, cfg, m, s.handlers, ask, code, f);
  }
}
