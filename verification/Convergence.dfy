/** What one undisturbed, fault-free CreateVolume does, from any state crashes and other requests may leave. */
module Convergence {
  import opened Status
  import opened VolumeStore
  import opened Provisioning
  import opened ProvisioningInvariant
  import opened ProvisioningSafety

  /** A create's remaining remote calls made one after another with nothing in between, with these outcomes. */
  function Serve(e: Env, lvs: Store, id: nat, req: CreateRequest, stage: CreateStage, outcomes: seq<Outcome>)
    : (Store, CreateStage)
    decreases |outcomes|
  {
    if outcomes == [] then (lvs, stage)
    else
      var (later, next) := StepCreate(e, lvs, id, req, stage, outcomes[0]);
      Serve(e, later, id, req, next, outcomes[1..])
  }

  /** The same for a delete. */
  function ServeDelete(lvs: Store, id: VolumeId, stage: DeleteStage, outcomes: seq<Outcome>): (Store, DeleteStage)
    decreases |outcomes|
  {
    if outcomes == [] then (lvs, stage)
    else
      var (later, next) := StepDelete(lvs, id, stage, outcomes[0]);
      ServeDelete(later, id, next, outcomes[1..])
  }

  function Polls(i: nat, outcomes: seq<Outcome>): seq<Event> {
    if outcomes == [] then [] else [Poll(i, outcomes[0])] + Polls(i, outcomes[1..])
  }

  lemma RunFront(e: Env, s: State, event: Event, rest: seq<Event>)
    ensures Run(e, s, [event] + rest) == Run(e, Apply(e, s, event), rest)
  {
    RunConcat(e, s, [event], rest);
    assert Run(e, s, [event][..0]) == s;
  }

  /** Serving a create alone is the run that polls only it. */
  lemma {:induction false} ServeIsRun(e: Env, s: State, i: nat, outcomes: seq<Outcome>)
    requires i < |s.calls| && s.calls[i].CreateCall?
    ensures var (lvs, stage) := Serve(e, s.lvs, i, s.calls[i].req, s.calls[i].create, outcomes);
      Run(e, s, Polls(i, outcomes)) == State(lvs, s.calls[i := CreateCall(s.calls[i].req, stage)])
    decreases |outcomes|
  {
    if outcomes != [] {
      var next := Apply(e, s, Poll(i, outcomes[0]));
      RunFront(e, s, Poll(i, outcomes[0]), Polls(i, outcomes[1..]));
      ServeIsRun(e, next, i, outcomes[1..]);
    }
  }

  lemma {:induction false} ServeDeleteIsRun(e: Env, s: State, i: nat, outcomes: seq<Outcome>)
    requires i < |s.calls| && s.calls[i].DeleteCall?
    ensures var (lvs, stage) := ServeDelete(s.lvs, s.calls[i].id, s.calls[i].delete, outcomes);
      Run(e, s, Polls(i, outcomes)) == State(lvs, s.calls[i := DeleteCall(s.calls[i].id, s.calls[i].issued, stage)])
    decreases |outcomes|
  {
    if outcomes != [] {
      var next := Apply(e, s, Poll(i, outcomes[0]));
      RunFront(e, s, Poll(i, outcomes[0]), Polls(i, outcomes[1..]));
      ServeDeleteIsRun(e, next, i, outcomes[1..]);
    }
  }

  /** Four remote calls, each carried out and answered. */
  const FAULT_FREE: seq<Outcome> := [Answered, Answered, Answered, Answered]

  /** A request that arrives and is then served alone without a fault. */
  function Undisturbed(s: State, req: CreateRequest): seq<Event> {
    [NewCreate(req)] + Polls(|s.calls|, FAULT_FREE)
  }

  /** The reply request `i` got, if it is a create that has one. */
  function ReplyOf(s: State, i: nat): Option<Result<CsiVolume>> {
    if i < |s.calls| && s.calls[i].CreateCall? && s.calls[i].create.Created? then Some(s.calls[i].create.result)
    else None
  }

  /**
   * When an undisturbed create can succeed: the request is well formed and in range of the bytes free now,
   * and either a volume of its name exists with exactly its size, or one can be added.
   */
  predicate CanServe(e: Env, lvs: Store, req: CreateRequest) {
    && Validate(req).Ok?
    && MIN_VOLUME_SIZE_BYTES <= Asked(req) <= FreeBytes(e, lvs)
    && match FindName(lvs, SafeName(e, req.name))
       case Some(u) => FindNameSound(lvs, SafeName(e, req.name)); lvs[u].capacity == Asked(req)
       case None => e.accepts(Asked(req)) && Allocated(lvs) + e.round(Asked(req)) <= e.size
  }

  /** The status an undisturbed create that cannot be served is refused with. */
  function Refusal(e: Env, lvs: Store, req: CreateRequest): Code {
    if Validate(req).Err? then InvalidArgument
    else if !(MIN_VOLUME_SIZE_BYTES <= Asked(req) <= FreeBytes(e, lvs)) then OutOfRange
    else if FindName(lvs, SafeName(e, req.name)).Some? then AlreadyExists
    else InvalidArgument
  }

  lemma ServeCons(e: Env, lvs: Store, id: nat, req: CreateRequest, stage: CreateStage, rest: seq<Outcome>)
    ensures var (later, next) := StepCreate(e, lvs, id, req, stage, Answered);
      Serve(e, lvs, id, req, stage, [Answered] + rest) == Serve(e, later, id, req, next, rest)
  {
    assert ([Answered] + rest)[1..] == rest;
  }

  /** A create that has its reply stays as it is. */
  lemma {:induction false} ServeSettled(e: Env, lvs: Store, id: nat, req: CreateRequest, stage: CreateStage,
                                        outcomes: seq<Outcome>)
    requires stage.Created? || stage.CreateDropped?
    ensures Serve(e, lvs, id, req, stage, outcomes) == (lvs, stage)
    decreases |outcomes|
  {
    if outcomes != [] {
      ServeSettled(e, lvs, id, req, stage, outcomes[1..]);
    }
  }

  /** The volume an undisturbed create ends up with. */
  function Target(e: Env, lvs: Store, req: CreateRequest): nat {
    match FindName(lvs, SafeName(e, req.name)) case Some(u) => u case None => |lvs|
  }

  /** What undisturbed success means for the store: the target is live, of its name and size, and just formatted. */
  predicate Provisioned(e: Env, lvs: Store, later: Store, id: nat, req: CreateRequest) {
    var u := Target(e, lvs, req);
    && Live(later, u) && later[u].name == SafeName(e, req.name)
    && later[u].blank && later[u].formats != [] && later[u].formats[|later[u].formats| - 1] == id
    && (if u < |lvs| then later[u].capacity == Asked(req) && |later| == |lvs| && Allocated(later) == Allocated(lvs)
        else later[u].capacity == e.round(Asked(req)) && |later| == |lvs| + 1
             && Allocated(later) == Allocated(lvs) + e.round(Asked(req)))
  }

  /** The last call: formatting the target. */
  lemma FormatAlone(e: Env, lvs: Store, id: nat, req: CreateRequest, u: nat, rest: seq<Outcome>)
    requires WellFormed(e, lvs) && FindName(lvs, SafeName(e, req.name)) == Some(u) && Live(lvs, u)
    ensures var (later, stage) := Serve(e, lvs, id, req, Format(Info(lvs, u)), [Answered] + rest);
      && stage == Created(Ok(ProcessVolume(Info(lvs, u))))
      && StoreGrows(lvs, later) && WellFormed(e, later) && |later| == |lvs|
      && Live(later, u) && Info(later, u) == Info(lvs, u) && later[u].capacity == lvs[u].capacity
      && later[u].formats == lvs[u].formats + [id] && later[u].blank
      && Allocated(later) == Allocated(lvs)
  {
    var name := SafeName(e, req.name);
    FormatLvEffect(e, lvs, name, id);
    FindNameSound(lvs, name);
    ServeCons(e, lvs, id, req, Format(Info(lvs, u)), rest);
    ServeSettled(e, FormatLv(lvs, name, id).value, id, req, Created(Ok(ProcessVolume(Info(lvs, u)))), rest);
    assert VolumeGrows(lvs[u], FormatLv(lvs, name, id).value[u]);
  }

  /** What serving alone must come to, from an admitted request's lookup on. */
  ghost predicate ServedRight(e: Env, lvs: Store, id: nat, req: CreateRequest, later: Store, stage: CreateStage) {
    && stage.Created? && StoreGrows(lvs, later) && WellFormed(e, later)
    && (stage.result.Ok? <==> CanServe(e, lvs, req))
    && (CanServe(e, lvs, req) ==>
          && Provisioned(e, lvs, later, id, req)
          && stage.result.value == ProcessVolume(Info(later, Target(e, lvs, req))))
    && (!CanServe(e, lvs, req) ==> later == lvs && stage.result == Err(Refusal(e, lvs, req)))
  }

  ghost predicate AdmittedNow(e: Env, lvs: Store, req: CreateRequest) {
    WellFormed(e, lvs) && Validate(req).Ok? && MIN_VOLUME_SIZE_BYTES <= Asked(req) <= FreeBytes(e, lvs)
  }

  /** The lookup onwards when a volume of the name exists. */
  lemma FoundAlone(e: Env, lvs: Store, id: nat, req: CreateRequest, u: nat)
    requires ValidEnv(e) && AdmittedNow(e, lvs, req) && FindName(lvs, SafeName(e, req.name)) == Some(u)
    ensures var (later, stage) := Serve(e, lvs, id, req, LookUp, [Answered, Answered, Answered]);
      ServedRight(e, lvs, id, req, later, stage)
  {
    FindNameSound(lvs, SafeName(e, req.name));
    assert [Answered] + [Answered, Answered] == [Answered, Answered, Answered];
    ServeCons(e, lvs, id, req, LookUp, [Answered, Answered]);
    LiveSizeOnWire(e, lvs, u);
    if lvs[u].capacity == Asked(req) {
      assert [Answered] + [Answered] == [Answered, Answered];
      FormatAlone(e, lvs, id, req, u, [Answered]);
    } else {
      ServeSettled(e, lvs, id, req, Created(Err(AlreadyExists)), [Answered, Answered]);
    }
  }

  /** Adding and formatting, when no volume of the name exists. */
  lemma AddAlone(e: Env, lvs: Store, id: nat, req: CreateRequest)
    requires ValidEnv(e) && AdmittedNow(e, lvs, req) && FindName(lvs, SafeName(e, req.name)).None?
    ensures var (later, stage) := Serve(e, lvs, id, req, Add, [Answered, Answered]);
      ServedRight(e, lvs, id, req, later, stage)
  {
    var name := SafeName(e, req.name);
    var added := AddLv(e, lvs, name, Asked(req), id);
    FindNameSound(lvs, name);
    AddLvEffect(e, lvs, name, Asked(req), id);
    assert [Answered] + [Answered] == [Answered, Answered];
    ServeCons(e, lvs, id, req, Add, [Answered]);
    if added.Ok? {
      assert [Answered] + [] == [Answered];
      FormatAlone(e, added.value, id, req, |lvs|, []);
      StoreGrowsTransitive(lvs, added.value, Serve(e, lvs, id, req, Add, [Answered, Answered]).0);
    } else {
      ServeSettled(e, lvs, id, req, Created(Err(added.code)), [Answered]);
    }
  }

  lemma StoreGrowsTransitive(a: Store, b: Store, c: Store)
    requires StoreGrows(a, b) && StoreGrows(b, c)
    ensures StoreGrows(a, c)
  {
    forall u | 0 <= u < |a| ensures VolumeGrows(a[u], c[u]) {
      assert VolumeGrows(a[u], b[u]) && VolumeGrows(b[u], c[u]);
    }
  }

  /** The lookup onwards, for an admitted request. */
  lemma LookUpAlone(e: Env, lvs: Store, id: nat, req: CreateRequest)
    requires ValidEnv(e) && AdmittedNow(e, lvs, req)
    ensures var (later, stage) := Serve(e, lvs, id, req, LookUp, [Answered, Answered, Answered]);
      ServedRight(e, lvs, id, req, later, stage)
  {
    if FindName(lvs, SafeName(e, req.name)).Some? {
      FoundAlone(e, lvs, id, req, FindName(lvs, SafeName(e, req.name)).value);
    } else {
      assert [Answered] + [Answered, Answered] == [Answered, Answered, Answered];
      ServeCons(e, lvs, id, req, LookUp, [Answered, Answered]);
      AddAlone(e, lvs, id, req);
    }
  }

  /**
   * An undisturbed create gets a reply, succeeds exactly when it can be served, and then has provisioned
   * the volume it names; otherwise it leaves the store alone and is refused with the status due. Earlier
   * requests are not touched.
   */
  lemma UndisturbedCreate(e: Env, s: State, req: CreateRequest)
    requires ValidEnv(e) && WellFormed(e, s.lvs)
    ensures var t := Run(e, s, Undisturbed(s, req));
      && |t.calls| == |s.calls| + 1 && t.calls[..|s.calls|] == s.calls
      && StoreGrows(s.lvs, t.lvs) && WellFormed(e, t.lvs)
      && ReplyOf(t, |s.calls|).Some?
      && (ReplyOf(t, |s.calls|).value.Ok? <==> CanServe(e, s.lvs, req))
      && (CanServe(e, s.lvs, req) ==>
            && Provisioned(e, s.lvs, t.lvs, |s.calls|, req)
            && ReplyOf(t, |s.calls|).value.value == ProcessVolume(Info(t.lvs, Target(e, s.lvs, req))))
      && (!CanServe(e, s.lvs, req) ==> t.lvs == s.lvs && ReplyOf(t, |s.calls|).value == Err(Refusal(e, s.lvs, req)))
  {
    var i := |s.calls|;
    var s1 := Apply(e, s, NewCreate(req));
    RunFront(e, s, NewCreate(req), Polls(i, FAULT_FREE));
    ServeIsRun(e, s1, i, FAULT_FREE);
    if Validate(req).Ok? {
      assert [Answered] + [Answered, Answered, Answered] == FAULT_FREE;
      ServeCons(e, s.lvs, i, req, AskFree, [Answered, Answered, Answered]);
      if MIN_VOLUME_SIZE_BYTES <= Asked(req) <= FreeBytes(e, s.lvs) {
        LookUpAlone(e, s.lvs, i, req);
      } else {
        ServeSettled(e, s.lvs, i, req, Created(Err(OutOfRange)), [Answered, Answered, Answered]);
      }
    } else {
      ServeSettled(e, s.lvs, i, req, s1.calls[i].create, FAULT_FREE);
    }
  }

  /** Whether a fault-free retry made now, with nothing interleaved, would be answered OK. */
  predicate RetrySucceeds(e: Env, s: State, req: CreateRequest) {
    var reply := ReplyOf(Run(e, s, Undisturbed(s, req)), |s.calls|);
    reply.Some? && reply.value.Ok?
  }

  /**
   * Crash convergence: from every reachable state, in particular every one left by creates cut at any
   * await, an undisturbed create succeeds exactly when its size is within [MIN, bytes free now], any volume
   * already under its name has exactly that size, and, if there is none, LVM accepts the size and has room
   * for what it rounds it to. When the figure is the remaining room and the size is accepted and not
   * rounded, that last condition is implied. The volume is then live, of the name, and freshly formatted.
   */
  lemma CrashConvergence(e: Env, s0: State, events: seq<Event>, req: CreateRequest)
    requires ValidEnv(e) && Initial(e, s0)
    ensures var s := Run(e, s0, events);
      var name, size := SafeName(e, req.name), Asked(req);
      var fits := e.accepts(size) && Allocated(s.lvs) + e.round(size) <= e.size;
      && (RetrySucceeds(e, s, req) <==>
            && Validate(req).Ok? && MIN_VOLUME_SIZE_BYTES <= size <= FreeBytes(e, s.lvs)
            && (forall u :: Live(s.lvs, u) && s.lvs[u].name == name ==> s.lvs[u].capacity == size)
            && (fits || exists u :: Live(s.lvs, u) && s.lvs[u].name == name))
      && (e.figure == Remaining && e.accepts(size) && e.round(size) == size <= FreeBytes(e, s.lvs) && size > 0 ==> fits)
      && (RetrySucceeds(e, s, req) ==>
            var t := Run(e, s, Undisturbed(s, req));
            var u := Target(e, s.lvs, req);
            && BlankedBy(t, u, |s.calls|) && Live(t.lvs, u) && t.lvs[u].name == name
            && t.lvs[u].capacity == if u < |s.lvs| then size else e.round(size))
  {
    var s := Run(e, s0, events);
    ReachableInv(e, s0, events);
    UndisturbedCreate(e, s, req);
    FindNameSound(s.lvs, SafeName(e, req.name));
  }

  /**
   * A request whose own earlier attempt made the volume (and was then cut, refused, or answered OK) can be
   * retried successfully iff LVM did not round its size and the bytes free have not shrunk below it: the
   * range check comes before the lookup.
   */
  lemma RetryOfMaker(e: Env, s0: State, events: seq<Event>, u: nat)
    requires ValidEnv(e) && Initial(e, s0)
    requires Live(Run(e, s0, events).lvs, u) && Run(e, s0, events).lvs[u].maker.Some?
    ensures var s := Run(e, s0, events);
      var m := s.lvs[u].maker.value;
      && m < |s.calls| && s.calls[m].CreateCall?
      && var req := s.calls[m].req;
         RetrySucceeds(e, s, req) <==> e.round(Asked(req)) == Asked(req) <= FreeBytes(e, s.lvs)
  {
    var s := Run(e, s0, events);
    ReachableInv(e, s0, events);
    assert MakerOk(e, s, u);
    var req := s.calls[s.lvs[u].maker.value].req;
    FindNameExact(e, s.lvs, SafeName(e, req.name), u);
    UndisturbedCreate(e, s, req);
  }

  /**
   * Idempotency, exactly: repeating an undisturbed create right after it made its volume succeeds iff the
   * size was not rounded and, when the figure is the remaining room, twice the size fits beside the rest.
   */
  lemma RepeatSucceeds(e: Env, s: State, req: CreateRequest)
    requires ValidEnv(e) && WellFormed(e, s.lvs) && CanServe(e, s.lvs, req)
    requires FindName(s.lvs, SafeName(e, req.name)).None?
    ensures RetrySucceeds(e, Run(e, s, Undisturbed(s, req)), req) <==>
        && e.round(Asked(req)) == Asked(req)
        && (e.figure == Remaining ==> Allocated(s.lvs) + 2 * Asked(req) + e.spare <= e.size)
  {
    var t := Run(e, s, Undisturbed(s, req));
    UndisturbedCreate(e, s, req);
    FindNameExact(e, t.lvs, SafeName(e, req.name), Target(e, s.lvs, req));
    UndisturbedCreate(e, t, req);
  }

  /** Live volume `w` is the one a fault-free delete of `id` would remove. */
  predicate Named(lvs: Store, id: VolumeId, w: nat)
    requires w < |lvs|
  {
    match id case Managed(u) => w == u case Elsewhere(name) => lvs[w].name == name case _ => false
  }

  /** A request for a deletion that arrives and is then served alone without a fault. */
  function UndisturbedDelete(s: State, id: VolumeId): seq<Event> {
    [NewDelete(id)] + Polls(|s.calls|, [Answered, Answered])
  }

  /**
   * An undisturbed delete of a managed UUID is always answered OK and leaves exactly the other volumes, so
   * repeating it changes nothing more. One that names another group's volume takes the namesake instead,
   * and is answered OK iff there is one.
   */
  lemma DeleteAlone(e: Env, s: State, id: VolumeId)
    requires WellFormed(e, s.lvs) && (id.Managed? || id.Elsewhere?)
    ensures var t := Run(e, s, UndisturbedDelete(s, id));
      && |t.calls| == |s.calls| + 1 && t.calls[..|s.calls|] == s.calls
      && WellFormed(e, t.lvs) && |t.lvs| == |s.lvs|
      && (forall w :: Live(t.lvs, w) <==> Live(s.lvs, w) && !Named(s.lvs, id, w))
      && (forall w :: 0 <= w < |s.lvs| ==> t.lvs[w] == s.lvs[w].(live := t.lvs[w].live))
      && t.calls[|s.calls|].DeleteCall? && t.calls[|s.calls|].delete.Deleted?
      && (t.calls[|s.calls|].delete.result.Ok? <==>
            id.Managed? || exists w :: Live(s.lvs, w) && s.lvs[w].name == id.name)
  {
    var s1 := Apply(e, s, NewDelete(id));
    RunFront(e, s, NewDelete(id), Polls(|s.calls|, [Answered, Answered]));
    ServeDeleteIsRun(e, s1, |s.calls|, [Answered, Answered]);
    assert [Answered, Answered][1..] == [Answered] && [Answered][1..] == [];
    var found := FoundById(s.lvs, id);
    if found.Remove? {
      RemoveLvEffect(e, s.lvs, found.name);
    }
  }
}
