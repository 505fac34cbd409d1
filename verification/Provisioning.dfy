/**
 * The provisioning protocol as a step machine: any number of CreateVolume and DeleteVolume requests,
 * each a chain of remote calls to volumed, interleaved step by step without a lock.
 */
module Provisioning {
  import opened Status
  import opened MachineInts
  import opened VolumeStore

  /** 512 MiB. */
  const MIN_VOLUME_SIZE_BYTES: nat := 512 * 1024 * 1024

  datatype CapacityRange = CapacityRange(required: i64, limit: i64)

  datatype CreateRequest = CreateRequest(name: string, capabilities: nat, range: Option<CapacityRange>)

  /**
   * What a DeleteVolume request's `volume_id` denotes: nothing, an identifier LVM cannot parse, the UUID
   * of a volume in another group of the same host (found under that group's name for it), or position
   * `uuid` of the managed group's history.
   */
  datatype VolumeId = Missing | Malformed | Elsewhere(name: string) | Managed(uuid: nat)

  /** The CSI volume a reply carries. */
  datatype CsiVolume = CsiVolume(volumeId: nat, name: string, capacityBytes: i64)

  /** `process_volume`. */
  function ProcessVolume(info: LvInfo): CsiVolume {
    CsiVolume(info.uuid, info.name, AsI64(info.capacityBytes))
  }

  /** The requested size, or the minimum when no range is given. */
  function ParseCapacity(req: CreateRequest): Result<nat> {
    match req.range
    case Some(range) =>
      (match TryUsize(range.required)
       case Some(size) => if TryUsize(range.limit).Some? then Ok(size) else Err(InvalidArgument)
       case None => Err(InvalidArgument))
    case None => Ok(MIN_VOLUME_SIZE_BYTES)
  }

  /** Argument validation, before any remote call. */
  function Validate(req: CreateRequest): Result<nat> {
    if req.name == "" then Err(InvalidArgument)
    else if req.capabilities == 0 then Err(InvalidArgument)
    else ParseCapacity(req)
  }

  /** The size a well-formed request asks for. */
  function Asked(req: CreateRequest): nat {
    match ParseCapacity(req) case Ok(size) => size case Err(_) => 0
  }

  /** Where a CreateVolume request stands: the remote call it awaits, or its reply. */
  datatype CreateStage =
    | AskFree
    | LookUp
    | Add
    | Format(info: LvInfo)
    | Created(result: Result<CsiVolume>)
    | CreateDropped

  /** How a DeleteVolume request's lookup came out. */
  datatype Seen = SawNothing | SawFound | SawNotFound | SawError

  datatype DeleteStage =
    | Find
    | Remove(name: string)
    | Deleted(result: Result<()>, seen: Seen)
    | DeleteDropped

  /** A request with its captured locals; `issued` counts the UUIDs already given out when it arrived. */
  datatype Call =
    | CreateCall(req: CreateRequest, create: CreateStage)
    | DeleteCall(id: VolumeId, issued: nat, delete: DeleteStage)

  /** The store, and every request so far (a request's id is its position). */
  datatype State = State(lvs: Store, calls: seq<Call>)

  /**
   * What becomes of one remote call: carried out and answered; not carried out and answered with an
   * error; carried out but its answer lost; or the request abandoned before it is carried out.
   */
  datatype Outcome = Answered | Refused(code: Code) | Lost | Cut

  datatype Event =
    | NewCreate(req: CreateRequest)
    | NewDelete(id: VolumeId)
    | Poll(call: nat, outcome: Outcome)
    | Write(uuid: nat)

  /** The range check on the answered number of free bytes. */
  function RangeCheck(capacity: nat, free: nat): CreateStage {
    if capacity < MIN_VOLUME_SIZE_BYTES then Created(Err(OutOfRange))
    else if capacity > free then Created(Err(OutOfRange))
    else LookUp
  }

  /** The branch on the answered lookup by name. */
  function LookedUp(e: Env, lvs: Store, req: CreateRequest): CreateStage {
    match FindName(lvs, SafeName(e, req.name))
    case Some(u) =>
      FindNameSound(lvs, SafeName(e, req.name));
      if ToWire(lvs[u].capacity) != Asked(req) then Created(Err(AlreadyExists)) else Format(Info(lvs, u))
    case None => Add
  }

  function StepCreate(e: Env, lvs: Store, id: nat, req: CreateRequest, stage: CreateStage, outcome: Outcome)
    : (Store, CreateStage)
  {
    match stage
    case AskFree =>
      (match outcome
       case Answered => (lvs, RangeCheck(Asked(req), FreeBytes(e, lvs)))
       case Refused(_) => (lvs, Created(Err(Internal)))
       case Lost => (lvs, Created(Err(Internal)))
       case Cut => (lvs, CreateDropped))
    case LookUp =>
      (match outcome
       case Answered => (lvs, LookedUp(e, lvs, req))
       case Refused(code) => (lvs, if code == NotFound then Add else Created(Err(code)))
       case Lost => (lvs, Created(Err(Unavailable)))
       case Cut => (lvs, CreateDropped))
    case Add =>
      var added := AddLv(e, lvs, SafeName(e, req.name), Asked(req), id);
      (match outcome
       case Answered =>
         (match added
          case Ok(later) => (later, Format(Info(later, |lvs|)))
          case Err(code) => (lvs, Created(Err(code))))
       case Refused(code) => (lvs, Created(Err(code)))
       case Lost => (if added.Ok? then added.value else lvs, Created(Err(Unavailable)))
       case Cut => (lvs, CreateDropped))
    case Format(info) =>
      var formatted := FormatLv(lvs, SafeName(e, req.name), id);
      (match outcome
       case Answered =>
         (match formatted
          case Ok(later) => (later, Created(Ok(ProcessVolume(info))))
          case Err(code) => (lvs, Created(Err(code))))
       case Refused(code) => (lvs, Created(Err(code)))
       case Lost => (if formatted.Ok? then formatted.value else lvs, Created(Err(Unavailable)))
       case Cut => (lvs, CreateDropped))
    case Created(_) => (lvs, stage)
    case CreateDropped => (lvs, stage)
  }

  /** `get_logical_volume` by UUID, then `.ok()`: every error, not only NotFound, reads as absence. */
  function FoundById(lvs: Store, id: VolumeId): DeleteStage {
    match id
    case Managed(u) => if Live(lvs, u) then Remove(lvs[u].name) else Deleted(Ok(()), SawNotFound)
    case Elsewhere(name) => Remove(name)
    case Malformed => Deleted(Ok(()), SawError)
    case Missing => Deleted(Ok(()), SawError)
  }

  function StepDelete(lvs: Store, id: VolumeId, stage: DeleteStage, outcome: Outcome): (Store, DeleteStage) {
    match stage
    case Find =>
      (match outcome
       case Answered => (lvs, FoundById(lvs, id))
       case Refused(_) => (lvs, Deleted(Ok(()), SawError))
       case Lost => (lvs, Deleted(Ok(()), SawError))
       case Cut => (lvs, DeleteDropped))
    case Remove(name) =>
      var removed := RemoveLv(lvs, name);
      (match outcome
       case Answered =>
         (match removed
          case Ok(later) => (later, Deleted(Ok(()), SawFound))
          case Err(code) => (lvs, Deleted(Err(code), SawFound)))
       case Refused(code) => (lvs, Deleted(Err(code), SawFound))
       case Lost => (if removed.Ok? then removed.value else lvs, Deleted(Err(Unavailable), SawFound))
       case Cut => (lvs, DeleteDropped))
    case Deleted(_, _) => (lvs, stage)
    case DeleteDropped => (lvs, stage)
  }

  function NewCreateCall(req: CreateRequest): Call {
    match Validate(req)
    case Ok(_) => CreateCall(req, AskFree)
    case Err(code) => CreateCall(req, Created(Err(code)))
  }

  function NewDeleteCall(id: VolumeId, issued: nat): Call {
    DeleteCall(id, issued, if id == Missing then Deleted(Err(InvalidArgument), SawNothing) else Find)
  }

  /** One event. A poll of a request that does not exist, or already has its reply, changes nothing. */
  function Apply(e: Env, s: State, event: Event): State {
    match event
    case NewCreate(req) => s.(calls := s.calls + [NewCreateCall(req)])
    case NewDelete(id) => s.(calls := s.calls + [NewDeleteCall(id, |s.lvs|)])
    case Write(u) => s.(lvs := WriteTo(s.lvs, u))
    case Poll(i, outcome) =>
      if i >= |s.calls| then s
      else
        match s.calls[i]
        case CreateCall(req, stage) =>
          var (lvs, next) := StepCreate(e, s.lvs, i, req, stage, outcome);
          State(lvs, s.calls[i := CreateCall(req, next)])
        case DeleteCall(id, issued, stage) =>
          var (lvs, next) := StepDelete(s.lvs, id, stage, outcome);
          State(lvs, s.calls[i := DeleteCall(id, issued, next)])
  }

  /** A run: any events in any order. */
  function Run(e: Env, s: State, events: seq<Event>): State {
    if events == [] then s
    else Apply(e, Run(e, s, events[..|events| - 1]), events[|events| - 1])
  }

  lemma {:induction false} RunConcat(e: Env, s: State, a: seq<Event>, b: seq<Event>)
    ensures Run(e, s, a + b) == Run(e, Run(e, s, a), b)
  {
    if b == [] {
      assert a + b == a;
    } else {
      RunConcat(e, s, a, b[..|b| - 1]);
      assert (a + b)[..|a + b| - 1] == a + b[..|b| - 1];
    }
  }

  /** Where a history starts: no requests yet, and a store of untouched volumes LVM could hold. */
  ghost predicate Initial(e: Env, s: State) {
    && s.calls == []
    && WellFormed(e, s.lvs)
    && forall u :: 0 <= u < |s.lvs| ==> s.lvs[u].live && s.lvs[u].formats == [] && s.lvs[u].maker == None
  }
}
