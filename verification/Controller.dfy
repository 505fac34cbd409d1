/**
 * The controller's handlers as the source writes them, one remote call after another with early returns,
 * over a volumed object that holds the store. Each is proved to do what its steps of the machine do when
 * nothing interleaves, whatever becomes of each remote call.
 */
module Controller {
  import opened Status
  import opened VolumeStore
  import opened Provisioning
  import opened Convergence

  /** What a remote call gives its caller; Abandoned when the caller is dropped while waiting. */
  datatype Reply<+T> = Reply(result: Result<T>) | Abandoned

  /** volumed: the process that owns the volume group. */
  class Volumed {
    const env: Env
    var lvs: Store

    constructor (env: Env, lvs: Store)
      ensures this.env == env && this.lvs == lvs
    {
      this.env := env;
      this.lvs := lvs;
    }

    method GetFreeBytes(outcome: Outcome) returns (reply: Reply<nat>)
      ensures reply == match outcome
        case Answered => Reply(Ok(FreeBytes(env, lvs)))
        case Refused(code) => Reply(Err(code))
        case Lost => Reply(Err(Unavailable))
        case Cut => Abandoned
    {
      match outcome
      case Answered => return Reply(Ok(FreeBytes(env, lvs)));
      case Refused(code) => return Reply(Err(code));
      case Lost => return Reply(Err(Unavailable));
      case Cut => return Abandoned;
    }

    method GetByName(name: string, outcome: Outcome) returns (reply: Reply<LvInfo>)
      ensures match outcome
        case Answered =>
          (match FindName(lvs, name)
           case Some(u) => Live(lvs, u) && reply == Reply(Ok(Info(lvs, u)))
           case None => reply == Reply(Err(NotFound)))
          && (reply.result.Ok? ==> var info := reply.result.value;
                Live(lvs, info.uuid) && lvs[info.uuid].name == info.name == name && info == Info(lvs, info.uuid))
          && (reply.result.Err? ==> reply.result.code == NotFound && forall u :: Live(lvs, u) ==> lvs[u].name != name)
        case Refused(code) => reply == Reply(Err(code))
        case Lost => reply == Reply(Err(Unavailable))
        case Cut => reply == Abandoned
    {
      match outcome
      case Answered =>
        var found := FindName(lvs, name);
        FindNameSound(lvs, name);
        if found.None? {
          return Reply(Err(NotFound));
        }
        return Reply(Ok(Info(lvs, found.value)));
      case Refused(code) => return Reply(Err(code));
      case Lost => return Reply(Err(Unavailable));
      case Cut => return Abandoned;
    }

    /** `get_logical_volume` by UUID, which searches every group of the host. */
    method GetById(id: VolumeId, outcome: Outcome) returns (reply: Reply<string>)
      ensures match outcome
        case Answered =>
          (match id
           case Managed(u) => reply == Reply(if Live(lvs, u) then Ok(lvs[u].name) else Err(NotFound))
           case Elsewhere(name) => reply == Reply(Ok(name))
           case _ => reply == Reply(Err(InvalidArgument)))
        case Refused(code) => reply == Reply(Err(code))
        case Lost => reply == Reply(Err(Unavailable))
        case Cut => reply == Abandoned
    {
      match outcome
      case Answered =>
        match id {
          case Managed(u) => return Reply(if Live(lvs, u) then Ok(lvs[u].name) else Err(NotFound));
          case Elsewhere(name) => return Reply(Ok(name));
          case _ => return Reply(Err(InvalidArgument));
        }
      case Refused(code) => return Reply(Err(code));
      case Lost => return Reply(Err(Unavailable));
      case Cut => return Abandoned;
    }

    method CreateLogicalVolume(name: string, capacity: nat, request: nat, outcome: Outcome)
      returns (reply: Reply<LvInfo>)
      modifies this
      ensures var added := AddLv(env, old(lvs), name, capacity, request);
        && lvs == (if added.Ok? && (outcome.Answered? || outcome.Lost?) then added.value else old(lvs))
        && match outcome
           case Answered =>
             reply == (match added
                       case Ok(later) => Reply(Ok(Info(later, |old(lvs)|)))
                       case Err(code) => Reply(Err(code)))
           case Refused(code) => reply == Reply(Err(code))
           case Lost => reply == Reply(Err(Unavailable))
           case Cut => reply == Abandoned
    {
      var uuid := |lvs|;
      var added := AddLv(env, lvs, name, capacity, request);
      if outcome.Answered? || outcome.Lost? {
        if added.Ok? {
          lvs := added.value;
        }
      }
      match outcome
      case Answered => return Reply(if added.Ok? then Ok(Info(lvs, uuid)) else Err(added.code));
      case Refused(code) => return Reply(Err(code));
      case Lost => return Reply(Err(Unavailable));
      case Cut => return Abandoned;
    }

    method DeleteLogicalVolume(name: string, outcome: Outcome) returns (reply: Reply<()>)
      modifies this
      ensures var removed := RemoveLv(old(lvs), name);
        && lvs == (if removed.Ok? && (outcome.Answered? || outcome.Lost?) then removed.value else old(lvs))
        && match outcome
           case Answered => reply == Reply(if removed.Ok? then Ok(()) else Err(removed.code))
           case Refused(code) => reply == Reply(Err(code))
           case Lost => reply == Reply(Err(Unavailable))
           case Cut => reply == Abandoned
    {
      var removed := RemoveLv(lvs, name);
      if outcome.Answered? || outcome.Lost? {
        if removed.Ok? {
          lvs := removed.value;
        }
      }
      match outcome
      case Answered => return Reply(if removed.Ok? then Ok(()) else Err(removed.code));
      case Refused(code) => return Reply(Err(code));
      case Lost => return Reply(Err(Unavailable));
      case Cut => return Abandoned;
    }

    method FormatLogicalVolume(name: string, request: nat, outcome: Outcome) returns (reply: Reply<()>)
      modifies this
      ensures var formatted := FormatLv(old(lvs), name, request);
        && lvs == (if formatted.Ok? && (outcome.Answered? || outcome.Lost?) then formatted.value else old(lvs))
        && match outcome
           case Answered => reply == Reply(if formatted.Ok? then Ok(()) else Err(formatted.code))
           case Refused(code) => reply == Reply(Err(code))
           case Lost => reply == Reply(Err(Unavailable))
           case Cut => reply == Abandoned
    {
      var formatted := FormatLv(lvs, name, request);
      if outcome.Answered? || outcome.Lost? {
        if formatted.Ok? {
          lvs := formatted.value;
        }
      }
      match outcome
      case Answered => return Reply(if formatted.Ok? then Ok(()) else Err(formatted.code));
      case Refused(code) => return Reply(Err(code));
      case Lost => return Reply(Err(Unavailable));
      case Cut => return Abandoned;
    }
  }

  class RLVMController {
    const volumed: Volumed

    constructor (volumed: Volumed)
      ensures this.volumed == volumed
    {
      this.volumed := volumed;
    }

    /** `create_volume`: at most four remote calls, whose outcomes are given in order. */
    method CreateVolume(request: nat, req: CreateRequest, outcomes: seq<Outcome>) returns (stage: CreateStage)
      requires |outcomes| == 4
      modifies volumed
      ensures (volumed.lvs, stage)
           == Serve(volumed.env, old(volumed.lvs), request, req, NewCreateCall(req).create, outcomes)
      ensures stage.Created? || stage.CreateDropped?
    {
      hide AddLv, FormatLv, FindName, FreeBytes, SafeName;
      ghost var e, lvs := volumed.env, volumed.lvs;
      ghost var whole := Serve(e, lvs, request, req, NewCreateCall(req).create, outcomes);
      Outcomes(outcomes);
      // A bad request costs no remote call.
      var validated := Validate(req);
      if validated.Err? {
        ServeSettled(e, lvs, request, req, Created(Err(validated.code)), outcomes);
        return Created(Err(validated.code));
      }
      var capacity := validated.value;
      assert capacity == Asked(req);

      // The range check uses the figure as answered now.
      var free := volumed.GetFreeBytes(outcomes[0]);
      stage := match free
        case Abandoned => CreateDropped
        case Reply(Err(_)) => Created(Err(Internal))
        case Reply(Ok(bytes)) => RangeCheck(capacity, bytes);
      assert (lvs, stage) == StepCreate(e, lvs, request, req, AskFree, outcomes[0]);
      assert whole == Serve(e, lvs, request, req, stage, outcomes[1..]);
      if !stage.LookUp? {
        ServeSettled(e, lvs, request, req, stage, outcomes[1..]);
        return;
      }

      // A volume of the name and size is formatted again; one of another size is refused.
      var safeName := SafeName(volumed.env, req.name);
      var old_ := volumed.GetByName(safeName, outcomes[1]);
      stage := match old_
        case Abandoned => CreateDropped
        case Reply(Ok(info)) => if info.capacityBytes != capacity then Created(Err(AlreadyExists)) else Format(info)
        case Reply(Err(code)) => if code == NotFound then Add else Created(Err(code));
      assert (lvs, stage) == StepCreate(e, lvs, request, req, LookUp, outcomes[1]);
      assert whole == Serve(e, lvs, request, req, stage, outcomes[2..]);
      if stage.Created? || stage.CreateDropped? {
        ServeSettled(e, lvs, request, req, stage, outcomes[2..]);
        return;
      }

      // Only an answer of NotFound leads to a new volume.
      var next := 2;
      if stage.Add? {
        var added := volumed.CreateLogicalVolume(safeName, capacity, request, outcomes[2]);
        stage := match added
          case Abandoned => CreateDropped
          case Reply(Ok(info)) => Format(info)
          case Reply(Err(code)) => Created(Err(code));
        assert (volumed.lvs, stage) == StepCreate(e, lvs, request, req, Add, outcomes[2]);
        assert whole == Serve(e, volumed.lvs, request, req, stage, outcomes[3..]);
        if !stage.Format? {
          ServeSettled(e, volumed.lvs, request, req, stage, outcomes[3..]);
          return;
        }
        next := 3;
      }

      ghost var before := volumed.lvs;
      var info := stage.info;
      var formatted := volumed.FormatLogicalVolume(safeName, request, outcomes[next]);
      stage := match formatted
        case Abandoned => CreateDropped
        case Reply(Ok(_)) => Created(Ok(ProcessVolume(info)))
        case Reply(Err(code)) => Created(Err(code));
      assert (volumed.lvs, stage) == StepCreate(e, before, request, req, Format(info), outcomes[next]);
      assert outcomes[next..][0] == outcomes[next];
      assert whole == Serve(e, volumed.lvs, request, req, stage, outcomes[next..][1..]);
      ServeSettled(e, volumed.lvs, request, req, stage, outcomes[next..][1..]);
    }

    /** `delete_volume`: at most two remote calls. */
    method DeleteVolume(id: VolumeId, issued: nat, outcomes: seq<Outcome>) returns (stage: DeleteStage)
      requires |outcomes| == 2
      modifies volumed
      ensures (volumed.lvs, stage) == ServeDelete(old(volumed.lvs), id, NewDeleteCall(id, issued).delete, outcomes)
      ensures stage.Deleted? || stage.DeleteDropped?
    {
      ghost var lvs := volumed.lvs;
      ghost var whole := ServeDelete(lvs, id, NewDeleteCall(id, issued).delete, outcomes);
      assert outcomes[1..][1..] == [] && outcomes[1..][0] == outcomes[1];
      // The one refusal of a delete.
      if id.Missing? {
        ServeDeleteSettled(lvs, id, Deleted(Err(InvalidArgument), SawNothing), outcomes);
        return Deleted(Err(InvalidArgument), SawNothing);
      }

      var lv := volumed.GetById(id, outcomes[0]);
      stage := match lv
        case Abandoned => DeleteDropped
        case Reply(Ok(name)) => Remove(name)
        case Reply(Err(_)) =>
          Deleted(Ok(()), if outcomes[0].Answered? && id.Managed? then SawNotFound else SawError);
      assert (lvs, stage) == StepDelete(lvs, id, Find, outcomes[0]);
      assert whole == ServeDelete(lvs, id, stage, outcomes[1..]);

      // The removal goes by the name the lookup gave.
      if stage.Remove? {
        var name := stage.name;
        var removed := volumed.DeleteLogicalVolume(name, outcomes[1]);
        stage := match removed
          case Abandoned => DeleteDropped
          case Reply(Ok(_)) => Deleted(Ok(()), SawFound)
          case Reply(Err(code)) => Deleted(Err(code), SawFound);
        assert (volumed.lvs, stage) == StepDelete(lvs, id, Remove(name), outcomes[1]);
        assert whole == ServeDelete(volumed.lvs, id, stage, []);
      } else {
        ServeDeleteSettled(lvs, id, stage, outcomes[1..]);
      }
    }
  }

  /** Slices of four outcomes. */
  lemma Outcomes(outcomes: seq<Outcome>)
    requires |outcomes| == 4
    ensures outcomes[1..][1..] == outcomes[2..] && outcomes[2..][1..] == outcomes[3..] && outcomes[3..][1..] == []
    ensures outcomes[1..][0] == outcomes[1] && outcomes[2..][0] == outcomes[2] && outcomes[3..][0] == outcomes[3]
  {
  }

  lemma {:induction false} ServeDeleteSettled(lvs: Store, id: VolumeId, stage: DeleteStage, outcomes: seq<Outcome>)
    requires stage.Deleted? || stage.DeleteDropped?
    ensures ServeDelete(lvs, id, stage, outcomes) == (lvs, stage)
    decreases |outcomes|
  {
    if outcomes != [] {
      ServeDeleteSettled(lvs, id, stage, outcomes[1..]);
    }
  }
}
