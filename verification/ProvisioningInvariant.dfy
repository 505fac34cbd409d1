/** What every step of the provisioning machine keeps, in every interleaving. */
module ProvisioningInvariant {
  import opened Status
  import opened MachineInts
  import opened VolumeStore
  import opened Provisioning

  /** The request was well formed and passed the range check. */
  predicate Admissible(e: Env, req: CreateRequest) {
    Validate(req).Ok? && MIN_VOLUME_SIZE_BYTES <= Asked(req) <= Usable(e)
  }

  /** Volume `u` bears the request's name and has the size it asked for, or what LVM rounded that to. */
  predicate Serves(e: Env, lvs: Store, req: CreateRequest, u: nat) {
    && u < |lvs|
    && lvs[u].name == SafeName(e, req.name)
    && (ToWire(lvs[u].capacity) == Asked(req) || lvs[u].capacity == e.round(Asked(req)))
  }

  predicate CreateCallOk(e: Env, s: State, i: nat, req: CreateRequest, stage: CreateStage) {
    match stage
    case AskFree => Validate(req).Ok?
    case LookUp => Admissible(e, req)
    case Add => Admissible(e, req)
    case Format(info) =>
      Admissible(e, req) && Serves(e, s.lvs, req, info.uuid) && info == Info(s.lvs, info.uuid)
    case Created(Ok(v)) =>
      && Admissible(e, req) && Serves(e, s.lvs, req, v.volumeId)
      && v == ProcessVolume(Info(s.lvs, v.volumeId))
      && (Live(s.lvs, v.volumeId) ==> i in s.lvs[v.volumeId].formats)
    case Created(Err(_)) => true
    case CreateDropped => true
  }

  predicate DeleteCallOk(s: State, id: VolumeId, issued: nat, stage: DeleteStage) {
    && issued <= |s.lvs|
    && match (id, stage)
       case (Managed(u), Remove(name)) => u < |s.lvs| && s.lvs[u].name == name
       case (Managed(u), Deleted(Ok(_), SawFound)) => u < |s.lvs| && !s.lvs[u].live
       case (Managed(u), Deleted(Ok(_), SawNotFound)) => u < issued ==> !s.lvs[u].live
       case _ => true
  }

  predicate CallOk(e: Env, s: State, i: nat)
    requires i < |s.calls|
  {
    match s.calls[i]
    case CreateCall(req, stage) => CreateCallOk(e, s, i, req, stage)
    case DeleteCall(id, issued, stage) => DeleteCallOk(s, id, issued, stage)
  }

  /** A volume made by the machine was asked for by an admissible request of that name. */
  predicate MakerOk(e: Env, s: State, u: nat)
    requires u < |s.lvs|
  {
    match s.lvs[u].maker
    case None => true
    case Some(m) =>
      && m < |s.calls| && s.calls[m].CreateCall?
      && Admissible(e, s.calls[m].req) && e.accepts(Asked(s.calls[m].req))
      && s.lvs[u].name == SafeName(e, s.calls[m].req.name)
      && s.lvs[u].capacity == e.round(Asked(s.calls[m].req))
  }

  /** Request `i` is a create that has its reply or was dropped. */
  predicate SettledCreate(s: State, i: int) {
    0 <= i < |s.calls| && s.calls[i].CreateCall? && (s.calls[i].create.Created? || s.calls[i].create.CreateDropped?)
  }

  /** Every format was run by a settled create. */
  ghost predicate FormatsSettled(s: State) {
    forall u, k :: 0 <= u < |s.lvs| && 0 <= k < |s.lvs[u].formats| ==> SettledCreate(s, s.lvs[u].formats[k])
  }

  /** No request formats twice. */
  ghost predicate FormatsDistinct(lvs: Store) {
    forall u, k, w, l ::
      (0 <= u < |lvs| && 0 <= k < |lvs[u].formats| && 0 <= w < |lvs| && 0 <= l < |lvs[w].formats|
       && lvs[u].formats[k] == lvs[w].formats[l]) ==> u == w && k == l
  }

  ghost predicate Inv(e: Env, s: State) {
    && WellFormed(e, s.lvs)
    && (forall i :: 0 <= i < |s.calls| ==> CallOk(e, s, i))
    && (forall u :: 0 <= u < |s.lvs| ==> MakerOk(e, s, u))
    && FormatsSettled(s)
    && FormatsDistinct(s.lvs)
  }

  /** A request keeps its arguments, and its reply once it has one. */
  predicate CallGrows(c: Call, d: Call) {
    match c
    case CreateCall(req, stage) =>
      d.CreateCall? && d.req == req && (stage.Created? || stage.CreateDropped? ==> d.create == stage)
    case DeleteCall(id, issued, stage) =>
      && d.DeleteCall? && d.id == id && d.issued == issued
      && (stage.Deleted? || stage.DeleteDropped? ==> d.delete == stage)
  }

  /** History is never rewritten. */
  ghost predicate Grows(s: State, later: State) {
    && StoreGrows(s.lvs, later.lvs)
    && |s.calls| <= |later.calls|
    && forall i :: 0 <= i < |s.calls| ==> CallGrows(s.calls[i], later.calls[i])
  }

  lemma GrowsTransitive(a: State, b: State, c: State)
    requires Grows(a, b) && Grows(b, c)
    ensures Grows(a, c)
  {
    forall u | 0 <= u < |a.lvs| ensures VolumeGrows(a.lvs[u], c.lvs[u]) {
      assert VolumeGrows(a.lvs[u], b.lvs[u]) && VolumeGrows(b.lvs[u], c.lvs[u]);
    }
    forall i | 0 <= i < |a.calls| ensures CallGrows(a.calls[i], c.calls[i]) {
      assert CallGrows(a.calls[i], b.calls[i]) && CallGrows(b.calls[i], c.calls[i]);
    }
  }

  /** What a create step does to the store: one of nothing, one admitted volume, or one format. */
  lemma StepCreateStore(e: Env, s: State, i: nat, outcome: Outcome)
    requires WellFormed(e, s.lvs) && i < |s.calls| && s.calls[i].CreateCall?
    ensures var (lvs, next) := StepCreate(e, s.lvs, i, s.calls[i].req, s.calls[i].create, outcome);
      && StoreGrows(s.lvs, lvs) && WellFormed(e, lvs)
      && (s.calls[i].create.Created? || s.calls[i].create.CreateDropped? ==> next == s.calls[i].create)
  {
    var name := SafeName(e, s.calls[i].req.name);
    if s.calls[i].create.Add? {
      AddLvEffect(e, s.lvs, name, Asked(s.calls[i].req), i);
    } else if s.calls[i].create.Format? {
      FormatLvEffect(e, s.lvs, name, i);
    }
  }

  lemma StepDeleteStore(e: Env, s: State, i: nat, outcome: Outcome)
    requires WellFormed(e, s.lvs) && i < |s.calls| && s.calls[i].DeleteCall?
    ensures var (lvs, next) := StepDelete(s.lvs, s.calls[i].id, s.calls[i].delete, outcome);
      && StoreGrows(s.lvs, lvs) && WellFormed(e, lvs) && |lvs| == |s.lvs|
      && (forall u :: 0 <= u < |lvs| ==> lvs[u] == s.lvs[u].(live := lvs[u].live))
      && (s.calls[i].delete.Deleted? || s.calls[i].delete.DeleteDropped? ==> next == s.calls[i].delete)
  {
    if s.calls[i].delete.Remove? {
      RemoveLvEffect(e, s.lvs, s.calls[i].delete.name);
    }
  }

  /** Every event keeps the store well formed and history intact. */
  lemma ApplyGrows(e: Env, s: State, event: Event)
    requires WellFormed(e, s.lvs)
    ensures Grows(s, Apply(e, s, event)) && WellFormed(e, Apply(e, s, event).lvs)
  {
    match event
    case NewCreate(_) =>
    case NewDelete(_) =>
    case Write(u) => WriteToEffect(e, s.lvs, u);
    case Poll(i, outcome) =>
      if i < |s.calls| {
        if s.calls[i].CreateCall? {
          StepCreateStore(e, s, i, outcome);
        } else {
          StepDeleteStore(e, s, i, outcome);
        }
      }
  }

  /** Other requests' facts survive anything that only grows the store. */
  lemma CallOkStable(e: Env, s: State, later: State, i: nat)
    requires i < |s.calls| && CallOk(e, s, i)
    requires StoreGrows(s.lvs, later.lvs) && i < |later.calls| && later.calls[i] == s.calls[i]
    ensures CallOk(e, later, i)
  {
    match s.calls[i]
    case CreateCall(req, Format(info)) => assert VolumeGrows(s.lvs[info.uuid], later.lvs[info.uuid]);
    case CreateCall(req, Created(Ok(v))) =>
      assert VolumeGrows(s.lvs[v.volumeId], later.lvs[v.volumeId]);
    case CreateCall(req, _) =>
    case DeleteCall(Managed(u), issued, _) =>
      if u < |s.lvs| {
        assert VolumeGrows(s.lvs[u], later.lvs[u]);
      }
    case DeleteCall(_, _, _) =>
  }

  /** The polled create's own facts when it was still to add or look up its volume. */
  lemma PolledEarlyCreateOk(e: Env, s: State, i: nat, outcome: Outcome)
    requires ValidEnv(e) && Inv(e, s) && i < |s.calls| && s.calls[i].CreateCall? && !s.calls[i].create.Format?
    ensures CallOk(e, Apply(e, s, Poll(i, outcome)), i)
  {
    var req := s.calls[i].req;
    assert CallOk(e, s, i);
    AddLvEffect(e, s.lvs, SafeName(e, req.name), Asked(req), i);
    FindNameSound(s.lvs, SafeName(e, req.name));
  }

  /** The polled create's own facts at its last step: the volume it formats is the one it replies, if that lives. */
  lemma PolledFormatOk(e: Env, s: State, i: nat, outcome: Outcome)
    requires ValidEnv(e) && Inv(e, s) && i < |s.calls| && s.calls[i].CreateCall? && s.calls[i].create.Format?
    ensures CallOk(e, Apply(e, s, Poll(i, outcome)), i)
  {
    var name, u := SafeName(e, s.calls[i].req.name), s.calls[i].create.info.uuid;
    var later := Apply(e, s, Poll(i, outcome));
    assert CallOk(e, s, i);
    FormatLvEffect(e, s.lvs, name, i);
    if later.lvs != s.lvs {
      assert VolumeGrows(s.lvs[u], later.lvs[u]);
      if Live(later.lvs, u) {
        assert i == later.lvs[u].formats[|s.lvs[u].formats|];
      }
    }
  }

  /** The polled delete's own facts: a removal by name takes the looked-up volume, if that still lives. */
  lemma PolledDeleteOk(e: Env, s: State, i: nat, outcome: Outcome)
    requires Inv(e, s) && i < |s.calls| && s.calls[i].DeleteCall?
    ensures CallOk(e, Apply(e, s, Poll(i, outcome)), i)
  {
    assert CallOk(e, s, i);
    if s.calls[i].delete.Remove? {
      RemoveLvEffect(e, s.lvs, s.calls[i].delete.name);
      if s.calls[i].id.Managed? {
        assert Live(s.lvs, s.calls[i].id.uuid) || !s.lvs[s.calls[i].id.uuid].live;
        var later := Apply(e, s, Poll(i, outcome));
        assert Live(later.lvs, s.calls[i].id.uuid) || !later.lvs[s.calls[i].id.uuid].live;
      }
    }
  }

  /** Only the Add step of a create makes a volume: one, of its name and rounded size. */
  lemma OnlyAddAdds(e: Env, s: State, event: Event)
    requires WellFormed(e, s.lvs) && |s.lvs| < |Apply(e, s, event).lvs|
    ensures event.Poll? && event.call < |s.calls|
    ensures s.calls[event.call].CreateCall? && s.calls[event.call].create.Add?
    ensures var later, req := Apply(e, s, event).lvs, s.calls[event.call].req;
      && |later| == |s.lvs| + 1 && e.accepts(Asked(req)) && later[..|s.lvs|] == s.lvs
      && later[|s.lvs|] == Volume(SafeName(e, req.name), e.round(Asked(req)), Some(event.call), true, [], true)
  {
    if event.Write? {
      WriteToEffect(e, s.lvs, event.uuid);
    } else if event.Poll? && event.call < |s.calls| {
      var c := s.calls[event.call];
      if c.DeleteCall? {
        StepDeleteStore(e, s, event.call, event.outcome);
      } else if c.create.Format? {
        FormatLvEffect(e, s.lvs, SafeName(e, c.req.name), event.call);
      }
    }
  }

  lemma MakersStable(e: Env, s: State, event: Event)
    requires ValidEnv(e) && Inv(e, s)
    ensures forall u :: 0 <= u < |Apply(e, s, event).lvs| ==> MakerOk(e, Apply(e, s, event), u)
  {
    var later := Apply(e, s, event);
    ApplyGrows(e, s, event);
    forall u | 0 <= u < |later.lvs| ensures MakerOk(e, later, u) {
      if u < |s.lvs| {
        assert MakerOk(e, s, u) && VolumeGrows(s.lvs[u], later.lvs[u]);
        if s.lvs[u].maker.Some? {
          assert CallGrows(s.calls[s.lvs[u].maker.value], later.calls[s.lvs[u].maker.value]);
        }
      } else {
        OnlyAddAdds(e, s, event);
        assert CallOk(e, s, event.call);
        assert CallGrows(s.calls[event.call], later.calls[event.call]);
      }
    }
  }

  /** A step that formats nothing keeps both format facts. */
  lemma FormatsFrame(s: State, later: State)
    requires FormatsSettled(s) && FormatsDistinct(s.lvs) && |s.lvs| <= |later.lvs|
    requires forall i :: SettledCreate(s, i) ==> SettledCreate(later, i)
    requires forall u :: 0 <= u < |later.lvs| ==> later.lvs[u].formats == if u < |s.lvs| then s.lvs[u].formats else []
    ensures FormatsSettled(later) && FormatsDistinct(later.lvs)
  {
  }

  /** A format step: an unsettled request joins the end of exactly one history. */
  lemma FormatOnce(s: State, later: State, i: nat, target: nat)
    requires FormatsSettled(s) && FormatsDistinct(s.lvs) && !SettledCreate(s, i) && SettledCreate(later, i)
    requires forall j :: SettledCreate(s, j) ==> SettledCreate(later, j)
    requires |later.lvs| == |s.lvs| && target < |s.lvs|
    requires forall u :: 0 <= u < |s.lvs| ==>
      later.lvs[u].formats == if u == target then s.lvs[u].formats + [i] else s.lvs[u].formats
    ensures FormatsSettled(later) && FormatsDistinct(later.lvs)
  {
    forall u, k | 0 <= u < |s.lvs| && 0 <= k < |s.lvs[u].formats| ensures s.lvs[u].formats[k] != i {
      assert SettledCreate(s, s.lvs[u].formats[k]);
    }
    assert FormatsSettled(later) by {
      forall u, k | 0 <= u < |later.lvs| && 0 <= k < |later.lvs[u].formats|
        ensures SettledCreate(later, later.lvs[u].formats[k])
      {
        if k < |s.lvs[u].formats| {
          assert SettledCreate(s, s.lvs[u].formats[k]);
        }
      }
    }
    hide SettledCreate, FormatsSettled;
    forall u, k, w, l | 0 <= u < |later.lvs| && 0 <= k < |later.lvs[u].formats| && 0 <= w < |later.lvs|
      && 0 <= l < |later.lvs[w].formats| && later.lvs[u].formats[k] == later.lvs[w].formats[l]
      ensures u == w && k == l
    {
      assert k < |s.lvs[u].formats| <==> later.lvs[u].formats[k] != i;
      assert l < |s.lvs[w].formats| <==> later.lvs[w].formats[l] != i;
      if later.lvs[u].formats[k] != i {
        assert s.lvs[u].formats[k] == s.lvs[w].formats[l];
      }
    }
  }

  /** Formats stay settled and distinct: only an unsettled create formats, and it settles in that step. */
  lemma FormatsAfterCreateStep(e: Env, s: State, i: nat, outcome: Outcome)
    requires Inv(e, s) && i < |s.calls| && s.calls[i].CreateCall?
    ensures FormatsSettled(Apply(e, s, Poll(i, outcome))) && FormatsDistinct(Apply(e, s, Poll(i, outcome)).lvs)
  {
    var later := Apply(e, s, Poll(i, outcome));
    var name := SafeName(e, s.calls[i].req.name);
    SettledStays(e, s, Poll(i, outcome));
    if s.calls[i].create.Format? && later.lvs != s.lvs {
      FindNameSound(s.lvs, name);
      FormatOnce(s, later, i, FindName(s.lvs, name).value);
    } else {
      FormatsFrame(s, later);
    }
  }

  lemma SettledStays(e: Env, s: State, event: Event)
    requires WellFormed(e, s.lvs)
    ensures forall j :: SettledCreate(s, j) ==> SettledCreate(Apply(e, s, event), j)
  {
    ApplyGrows(e, s, event);
    forall j | SettledCreate(s, j) ensures SettledCreate(Apply(e, s, event), j) {
      assert CallGrows(s.calls[j], Apply(e, s, event).calls[j]);
    }
  }

  lemma FormatsStable(e: Env, s: State, event: Event)
    requires Inv(e, s)
    ensures FormatsSettled(Apply(e, s, event)) && FormatsDistinct(Apply(e, s, event).lvs)
  {
    SettledStays(e, s, event);
    if event.Poll? && event.call < |s.calls| && s.calls[event.call].CreateCall? {
      FormatsAfterCreateStep(e, s, event.call, event.outcome);
    } else {
      if event.Poll? && event.call < |s.calls| {
        StepDeleteStore(e, s, event.call, event.outcome);
      } else if event.Write? {
        WriteToEffect(e, s.lvs, event.uuid);
      }
      FormatsFrame(s, Apply(e, s, event));
    }
  }

  lemma ApplyKeepsInv(e: Env, s: State, event: Event)
    requires ValidEnv(e) && Inv(e, s)
    ensures Inv(e, Apply(e, s, event))
  {
    var later := Apply(e, s, event);
    ApplyGrows(e, s, event);
    MakersStable(e, s, event);
    FormatsStable(e, s, event);
    forall i | 0 <= i < |later.calls| ensures CallOk(e, later, i) {
      if event.Poll? && event.call == i {
        if s.calls[i].CreateCall? {
          if s.calls[i].create.Format? {
            PolledFormatOk(e, s, i, event.outcome);
          } else {
            PolledEarlyCreateOk(e, s, i, event.outcome);
          }
        } else {
          PolledDeleteOk(e, s, i, event.outcome);
        }
      } else if i < |s.calls| {
        CallOkStable(e, s, later, i);
      }
    }
  }

  /** Every state of every run satisfies the invariant and only adds to history. */
  lemma {:induction false} RunKeepsInv(e: Env, s: State, events: seq<Event>)
    requires ValidEnv(e) && Inv(e, s)
    ensures Inv(e, Run(e, s, events)) && Grows(s, Run(e, s, events))
  {
    if events != [] {
      var front := events[..|events| - 1];
      RunKeepsInv(e, s, front);
      ApplyKeepsInv(e, Run(e, s, front), events[|events| - 1]);
      ApplyGrows(e, Run(e, s, front), events[|events| - 1]);
      GrowsTransitive(s, Run(e, s, front), Run(e, s, events));
    }
  }

  lemma InitialInv(e: Env, s: State)
    requires Initial(e, s)
    ensures Inv(e, s)
  {
  }
}
