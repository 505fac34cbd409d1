/** What the admission check does, and does not, keep of the configured reserve. */
module Reservation {
  import opened VolumeStore
  import opened Provisioning
  import opened ProvisioningInvariant
  import opened ProvisioningSafety

  /** A create past the range check that has not yet added its volume. */
  predicate Admitted(c: Call) {
    c.CreateCall? && (c.create.LookUp? || c.create.Add?)
  }

  /** A create still waiting on volumed. */
  predicate InFlight(c: Call) {
    c.CreateCall? && !c.create.Created? && !c.create.CreateDropped?
  }

  function CountInFlight(calls: seq<Call>): nat {
    if calls == [] then 0
    else CountInFlight(calls[..|calls| - 1]) + if InFlight(calls[|calls| - 1]) then 1 else 0
  }

  /** The bytes admitted but not yet allocated. */
  function Pledged(calls: seq<Call>): nat {
    if calls == [] then 0
    else
      var c := calls[|calls| - 1];
      Pledged(calls[..|calls| - 1]) + if Admitted(c) then Asked(c.req) else 0
  }

  lemma {:induction false} SumsUpdate(calls: seq<Call>, i: nat, c: Call)
    requires i < |calls|
    ensures Pledged(calls[i := c]) + (if Admitted(calls[i]) then Asked(calls[i].req) else 0)
         == Pledged(calls) + (if Admitted(c) then Asked(c.req) else 0)
    ensures CountInFlight(calls[i := c]) + (if InFlight(calls[i]) then 1 else 0)
         == CountInFlight(calls) + (if InFlight(c) then 1 else 0)
  {
    var last := |calls| - 1;
    if i == last {
      assert calls[i := c][..last] == calls[..last];
    } else {
      SumsUpdate(calls[..last], i, c);
      assert calls[i := c][..last] == calls[..last][i := c];
    }
  }

  lemma SumsAppend(calls: seq<Call>, c: Call)
    ensures Pledged(calls + [c]) == Pledged(calls) + (if Admitted(c) then Asked(c.req) else 0)
    ensures CountInFlight(calls + [c]) == CountInFlight(calls) + (if InFlight(c) then 1 else 0)
  {
    assert (calls + [c])[..|calls|] == calls;
  }

  /** Each pledge is at most the usable size, so the pledges are at most the requests in flight times that. */
  lemma {:induction false} PledgedBound(e: Env, calls: seq<Call>)
    requires forall i :: 0 <= i < |calls| && Admitted(calls[i]) ==> Asked(calls[i].req) <= Usable(e)
    ensures Pledged(calls) <= CountInFlight(calls) * Usable(e)
  {
    if calls != [] {
      PledgedBound(e, calls[..|calls| - 1]);
      OneMoreFits(CountInFlight(calls[..|calls| - 1]), CountInFlight(calls[..|calls| - 1]) + 1, Usable(e));
    }
  }

  /** At most `n` creates are in flight in every state of the run. */
  ghost predicate AtMostInFlight(e: Env, s0: State, events: seq<Event>, n: nat) {
    forall k :: 0 <= k <= |events| ==> CountInFlight(Run(e, s0, events[..k]).calls) <= n
  }

  /** The bytes volume `v` was asked for with; a volume the machine did not make counts as it stands. */
  function RequestedBy(calls: seq<Call>, v: Volume): nat {
    match v.maker
    case Some(m) => if m < |calls| && calls[m].CreateCall? then Asked(calls[m].req) else v.capacity
    case None => v.capacity
  }

  /** The bytes the live volumes were asked for with. */
  function Requested(lvs: Store, calls: seq<Call>): nat {
    if lvs == [] then 0
    else
      var last := lvs[|lvs| - 1];
      Requested(lvs[..|lvs| - 1], calls) + if last.live then RequestedBy(calls, last) else 0
  }

  /** No live volume was given more than it was asked for with. */
  ghost predicate Unrounded(s: State) {
    forall u :: Live(s.lvs, u) ==> s.lvs[u].capacity == RequestedBy(s.calls, s.lvs[u])
  }

  /** What is requested is allocated, and no more than that is allocated if nothing was rounded. */
  lemma {:induction false} RequestedAllocated(e: Env, s: State, k: nat)
    requires ValidEnv(e) && Inv(e, s) && k <= |s.lvs|
    ensures Requested(s.lvs[..k], s.calls) <= Allocated(s.lvs[..k])
    ensures Unrounded(s) ==> Requested(s.lvs[..k], s.calls) == Allocated(s.lvs[..k])
  {
    if k > 0 {
      RequestedAllocated(e, s, k - 1);
      assert s.lvs[..k][..k - 1] == s.lvs[..k - 1] && s.lvs[..k][k - 1] == s.lvs[k - 1];
      assert MakerOk(e, s, k - 1);
      assert s.lvs[k - 1].live ==> Live(s.lvs, k - 1);
    }
  }

  /** What the volumes made so far were asked for with does not grow. */
  lemma {:induction false} RequestedShrinks(e: Env, s: State, later: State, k: nat)
    requires Inv(e, s) && Grows(s, later) && k <= |s.lvs|
    ensures Requested(later.lvs[..k], later.calls) <= Requested(s.lvs[..k], s.calls)
  {
    if k > 0 {
      RequestedShrinks(e, s, later, k - 1);
      assert s.lvs[..k][..k - 1] == s.lvs[..k - 1] && s.lvs[..k][k - 1] == s.lvs[k - 1];
      assert later.lvs[..k][..k - 1] == later.lvs[..k - 1] && later.lvs[..k][k - 1] == later.lvs[k - 1];
      assert MakerOk(e, s, k - 1) && VolumeGrows(s.lvs[k - 1], later.lvs[k - 1]);
      if s.lvs[k - 1].maker.Some? {
        var m := s.lvs[k - 1].maker.value;
        assert CallGrows(s.calls[m], later.calls[m]);
      }
    }
  }

  /** An event raises the bytes requested only when a create adds its volume, by what it asked for. */
  lemma RequestedStep(e: Env, s: State, event: Event)
    requires Inv(e, s)
    ensures var later := Apply(e, s, event);
      if |later.lvs| == |s.lvs| then Requested(later.lvs, later.calls) <= Requested(s.lvs, s.calls)
      else && event.Poll? && event.call < |s.calls| && s.calls[event.call].CreateCall?
           && s.calls[event.call].create.Add?
           && Requested(later.lvs, later.calls) <= Requested(s.lvs, s.calls) + Asked(s.calls[event.call].req)
  {
    var later := Apply(e, s, event);
    ApplyGrows(e, s, event);
    RequestedShrinks(e, s, later, |s.lvs|);
    assert s.lvs[..|s.lvs|] == s.lvs;
    if |later.lvs| == |s.lvs| {
      assert later.lvs[..|s.lvs|] == later.lvs;
    } else {
      OnlyAddAdds(e, s, event);
      assert CallGrows(s.calls[event.call], later.calls[event.call]);
      assert RequestedBy(later.calls, later.lvs[|s.lvs|]) == Asked(s.calls[event.call].req);
    }
  }

  ghost predicate WithinBound(e: Env, s: State, n: nat) {
    Requested(s.lvs, s.calls) + Pledged(s.calls) <= n * Usable(e)
  }

  /** Once past admission, a step turns at most its own pledge into requested bytes. */
  lemma CreateStepRedeems(e: Env, s: State, i: nat, outcome: Outcome)
    requires Inv(e, s) && i < |s.calls| && s.calls[i].CreateCall? && !s.calls[i].create.AskFree?
    ensures var later := Apply(e, s, Poll(i, outcome));
      Requested(later.lvs, later.calls) + Pledged(later.calls) <= Requested(s.lvs, s.calls) + Pledged(s.calls)
  {
    var req := s.calls[i].req;
    var later := Apply(e, s, Poll(i, outcome));
    SumsUpdate(s.calls, i, later.calls[i]);
    RequestedStep(e, s, Poll(i, outcome));
    if s.calls[i].create.Add? && |later.lvs| == |s.lvs| {
      hide Requested, Pledged;
    }
  }

  lemma {:induction false} OneMoreFits(m: nat, n: nat, share: nat)
    requires m + 1 <= n
    ensures m * share + share <= n * share
    decreases n
  {
    var less := n - 1;
    assert less * share + share == n * share;
    if m < less {
      OneMoreFits(m, less, share);
    }
  }

  /** The others' pledges are at most `n - 1` usable sizes. */
  lemma OthersPledges(e: Env, s: State, i: nat, n: nat)
    requires Inv(e, s) && i < |s.calls| && s.calls[i].CreateCall? && s.calls[i].create.AskFree?
    requires CountInFlight(s.calls) <= n
    ensures Pledged(s.calls) + Usable(e) <= n * Usable(e)
  {
    var others := s.calls[i := CreateCall(s.calls[i].req, CreateDropped)];
    SumsUpdate(s.calls, i, others[i]);
    forall j | 0 <= j < |others| && Admitted(others[j]) ensures Asked(others[j].req) <= Usable(e) {
      assert CallOk(e, s, j);
    }
    PledgedBound(e, others);
    OneMoreFits(CountInFlight(others), n, Usable(e));
  }

  /** The admission step: what it pledges fits in the room left at that moment. */
  lemma AdmissionWithinBound(e: Env, s: State, i: nat, outcome: Outcome, n: nat)
    requires ValidEnv(e) && e.figure == Remaining && Inv(e, s) && WithinBound(e, s, n)
    requires i < |s.calls| && s.calls[i].CreateCall? && s.calls[i].create.AskFree?
    requires CountInFlight(s.calls) <= n
    ensures WithinBound(e, Apply(e, s, Poll(i, outcome)), n)
  {
    SumsUpdate(s.calls, i, Apply(e, s, Poll(i, outcome)).calls[i]);
    OthersPledges(e, s, i, n);
    RequestedStep(e, s, Poll(i, outcome));
    RequestedAllocated(e, s, |s.lvs|);
    assert s.lvs[..|s.lvs|] == s.lvs;
  }

  /** Any event but the free-bytes answer of a create leaves requested plus pledged bytes no higher. */
  lemma OtherStepsRaiseNothing(e: Env, s: State, event: Event)
    requires Inv(e, s)
    requires event.Poll? && event.call < |s.calls| && s.calls[event.call].CreateCall? ==>
      !s.calls[event.call].create.AskFree?
    ensures var later := Apply(e, s, event);
      Requested(later.lvs, later.calls) + Pledged(later.calls) <= Requested(s.lvs, s.calls) + Pledged(s.calls)
  {
    RequestedStep(e, s, event);
    hide Requested;
    match event
    case NewCreate(req) => SumsAppend(s.calls, NewCreateCall(req));
    case NewDelete(id) => SumsAppend(s.calls, NewDeleteCall(id, |s.lvs|));
    case Write(_) =>
    case Poll(i, outcome) =>
      if i < |s.calls| {
        if s.calls[i].CreateCall? {
          CreateStepRedeems(e, s, i, outcome);
        } else {
          SumsUpdate(s.calls, i, Apply(e, s, event).calls[i]);
        }
      }
  }

  lemma StepWithinBound(e: Env, s: State, event: Event, n: nat)
    requires ValidEnv(e) && e.figure == Remaining && Inv(e, s) && WithinBound(e, s, n)
    requires CountInFlight(s.calls) <= n
    ensures WithinBound(e, Apply(e, s, event), n)
  {
    hide Apply, Requested, Pledged, CountInFlight, Usable;
    if event.Poll? && event.call < |s.calls| && s.calls[event.call].CreateCall? && s.calls[event.call].create.AskFree? {
      AdmissionWithinBound(e, s, event.call, event.outcome, n);
    } else {
      OtherStepsRaiseNothing(e, s, event);
    }
  }

  /**
   * The reservation bound: if the group's figure is its remaining room, then with at most `n` creates in
   * flight throughout, the bytes the live volumes were asked for with plus the bytes admitted but not yet
   * created never exceed `n` times the usable size. That is so on every host, whatever LVM rounds; where it
   * rounded none of the live volumes, the bytes allocated are the bytes asked for.
   */
  lemma {:induction false} ReservationBound(e: Env, s0: State, events: seq<Event>, n: nat)
    requires ValidEnv(e) && e.figure == Remaining
    requires Initial(e, s0) && Allocated(s0.lvs) <= n * Usable(e) && AtMostInFlight(e, s0, events, n)
    ensures var s := Run(e, s0, events);
      && Requested(s.lvs, s.calls) + Pledged(s.calls) <= n * Usable(e)
      && (Unrounded(s) ==> Allocated(s.lvs) + Pledged(s.calls) <= n * Usable(e))
  {
    var s := Run(e, s0, events);
    if events == [] {
      InitialInv(e, s0);
    } else {
      var front := events[..|events| - 1];
      forall k | 0 <= k <= |front| ensures CountInFlight(Run(e, s0, front[..k]).calls) <= n {
        assert front[..k] == events[..k];
      }
      ReservationBound(e, s0, front, n);
      ReachableInv(e, s0, front);
      assert events[..|front|] == front;
      StepWithinBound(e, Run(e, s0, front), events[|events| - 1], n);
    }
    ReachableInv(e, s0, events);
    RequestedAllocated(e, s, |s.lvs|);
    assert s.lvs[..|s.lvs|] == s.lvs;
  }

  /** Serial runs keep the configured reserve free of requested bytes, and free altogether unless LVM rounded. */
  lemma SerialRunsKeepReserve(e: Env, s0: State, events: seq<Event>)
    requires ValidEnv(e) && e.figure == Remaining
    requires Initial(e, s0) && Allocated(s0.lvs) + e.spare <= e.size && AtMostInFlight(e, s0, events, 1)
    ensures var s := Run(e, s0, events);
      && Requested(s.lvs, s.calls) + e.spare <= e.size
      && (Unrounded(s) ==> Allocated(s.lvs) + e.spare <= e.size)
  {
    ReservationBound(e, s0, events, 1);
  }

  /**
   * Whatever the figure means, every volume the machine made was asked for within [MIN, size - spare], and
   * has the size LVM rounded that to, so it is itself in that range if that size was not rounded.
   */
  lemma EachVolumeInRange(e: Env, s0: State, events: seq<Event>, u: nat)
    requires ValidEnv(e) && Initial(e, s0)
    requires u < |Run(e, s0, events).lvs| && Run(e, s0, events).lvs[u].maker.Some?
    ensures var s := Run(e, s0, events);
      var m := s.lvs[u].maker.value;
      && m < |s.calls| && s.calls[m].CreateCall?
      && var asked := Asked(s.calls[m].req);
         && MIN_VOLUME_SIZE_BYTES <= asked <= Usable(e) && e.accepts(asked)
         && s.lvs[u].capacity == e.round(asked) >= MIN_VOLUME_SIZE_BYTES
         && (e.round(asked) == asked ==> s.lvs[u].capacity <= Usable(e))
  {
    ReachableInv(e, s0, events);
    assert MakerOk(e, Run(e, s0, events), u);
  }
}
