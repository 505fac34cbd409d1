/** GetCapacity, and what its answer means for CreateVolume. */
module Capacity {
  import opened Status
  import opened MachineInts
  import opened VolumeStore
  import opened Provisioning
  import opened Convergence

  const MULTI_NODE_READER_ONLY := 3
  const MULTI_NODE_SINGLE_WRITER := 4
  const MULTI_NODE_MULTI_WRITER := 5

  /** `modes` holds each requested capability's access mode, if it names one. */
  datatype CapacityRequest = CapacityRequest(modes: seq<Option<i32>>, topology: Option<map<string, string>>)

  datatype CapacityReply = CapacityReply(available: i64, minimum: Option<i64>)

  function HostTopology(node: string): map<string, string> {
    map["host" := node]
  }

  predicate MultiNode(mode: Option<i32>) {
    mode.Some? && mode.value in {MULTI_NODE_MULTI_WRITER, MULTI_NODE_READER_ONLY, MULTI_NODE_SINGLE_WRITER}
  }

  /** `into_iter().map(..).find(..)` over the capabilities. */
  function FindMultiNode(modes: seq<Option<i32>>): Option<i32> {
    if modes == [] then None
    else if MultiNode(modes[0]) then modes[0]
    else FindMultiNode(modes[1..])
  }

  /** The default reply, with nothing available and no minimum. */
  const SHORT_OUT := CapacityReply(0, None)

  function GetCapacity(e: Env, lvs: Store, node: string, req: CapacityRequest): (reply: CapacityReply)
    requires FreeBytes(e, lvs) < TWO_64
  {
    if FindMultiNode(req.modes).Some? then SHORT_OUT
    else if Some(HostTopology(node)) == req.topology then SHORT_OUT
    else CapacityReply(AsI64(FreeBytes(e, lvs)), Some(MIN_VOLUME_SIZE_BYTES))
  }

  lemma {:induction false} FindMultiNodeExact(modes: seq<Option<i32>>)
    ensures FindMultiNode(modes).Some? <==> exists k :: 0 <= k < |modes| && MultiNode(modes[k])
  {
    if modes != [] {
      FindMultiNodeExact(modes[1..]);
      if FindMultiNode(modes[1..]).Some? {
        var k :| 0 <= k < |modes[1..]| && MultiNode(modes[1..][k]);
        assert MultiNode(modes[k + 1]);
      }
      if k :| 0 < k < |modes| && MultiNode(modes[k]) {
        assert MultiNode(modes[1..][k - 1]);
      }
    }
  }

  /**
   * The whole reply: nothing available and no minimum when some capability asks for a multi-node mode (3, 4 or
   * 5) or the topology asked about is this very host's; otherwise the free bytes as an i64, which a figure of
   * 2^63 or more makes negative, and 512 MiB. The two never coincide.
   */
  lemma GetCapacityExactly(e: Env, lvs: Store, node: string, req: CapacityRequest)
    requires ValidEnv(e)
    ensures FreeBytes(e, lvs) < 0x1_0000_0000_0000_0000
    ensures var reply, free := GetCapacity(e, lvs, node, req), FreeBytes(e, lvs);
      var multi := exists k :: 0 <= k < |req.modes| && req.modes[k] in {Some(3), Some(4), Some(5)};
      var own := req.topology == Some(map["host" := node]);
      && (reply == CapacityReply(0, None) <==> multi || own)
      && var signed := if free < 0x8000_0000_0000_0000 then free else free - 0x1_0000_0000_0000_0000;
         (reply == CapacityReply(signed, Some(536870912)) <==> !multi && !own)
  {
    FindMultiNodeExact(req.modes);
    forall k | 0 <= k < |req.modes|
      ensures MultiNode(req.modes[k]) <==> req.modes[k] in {Some(3), Some(4), Some(5)}
    {
    }
    hide FindMultiNode, MultiNode;
  }

  /** GetCapacity with its remote call, which is made only when the request does not short out. */
  function AnswerCapacity(e: Env, lvs: Store, node: string, req: CapacityRequest, outcome: Outcome)
    : (reply: Option<Result<CapacityReply>>)
    requires ValidEnv(e)
    ensures reply.None? <==> outcome.Cut? && GetCapacity(e, lvs, node, req) != CapacityReply(0, None)
    ensures reply.Some? && reply.value.Err? ==> reply.value.code == Internal && (outcome.Refused? || outcome.Lost?)
    ensures reply.Some? && reply.value.Ok? ==> reply.value.value == GetCapacity(e, lvs, node, req)
    ensures !outcome.Answered? && reply.Some? && reply.value.Ok? ==> reply.value.value == CapacityReply(0, None)
  {
    if FindMultiNode(req.modes).Some? || Some(HostTopology(node)) == req.topology then Some(Ok(SHORT_OUT))
    else
      match outcome
      case Answered => Some(Ok(GetCapacity(e, lvs, node, req)))
      case Cut => None
      case _ => Some(Err(Internal))
  }

  /**
   * The request shorts out exactly when some capability is a multi-node one or the topology asked about is
   * this very host's (the comment in the source has it the other way round).
   */
  lemma ShortsOutExactly(e: Env, lvs: Store, node: string, req: CapacityRequest)
    requires ValidEnv(e)
    ensures FreeBytes(e, lvs) < TWO_64
    ensures GetCapacity(e, lvs, node, req) == SHORT_OUT <==>
      (exists k :: 0 <= k < |req.modes| && MultiNode(req.modes[k])) || req.topology == Some(map["host" := node])
  {
    FindMultiNodeExact(req.modes);
  }

  /** A create served undisturbed from this state is not answered OutOfRange. */
  predicate AvoidsOutOfRange(e: Env, s: State, req: CreateRequest) {
    ReplyOf(Run(e, s, Undisturbed(s, req)), |s.calls|) != Some(Err(OutOfRange))
  }

  /** The request's size is between the two figures of the reply. */
  predicate WithinAdvertised(reply: CapacityReply, req: CreateRequest) {
    reply.minimum.Some? && reply.minimum.value <= Asked(req) <= reply.available
  }

  lemma AvoidsOutOfRangeExactly(e: Env, s: State, req: CreateRequest)
    requires ValidEnv(e) && WellFormed(e, s.lvs) && Validate(req).Ok?
    ensures AvoidsOutOfRange(e, s, req) <==> MIN_VOLUME_SIZE_BYTES <= Asked(req) <= FreeBytes(e, s.lvs)
  {
    UndisturbedCreate(e, s, req);
    hide Run, Undisturbed;
  }

  /**
   * The advertised figures are the admission bound: on an unchanged store, every well-formed create served
   * undisturbed avoids OutOfRange exactly when its size is between the two, iff the free bytes fit an i64.
   * A larger figure is advertised as a negative number.
   */
  lemma AdvertisedIsAdmissionBound(e: Env, s: State, node: string, asked: CapacityRequest)
    requires ValidEnv(e) && WellFormed(e, s.lvs)
    requires GetCapacity(e, s.lvs, node, asked) != SHORT_OUT
    ensures var reply := GetCapacity(e, s.lvs, node, asked);
      (forall req :: Validate(req).Ok? ==> (AvoidsOutOfRange(e, s, req) <==> WithinAdvertised(reply, req)))
        <==> FreeBytes(e, s.lvs) < TWO_63
  {
    forall req | Validate(req).Ok?
      ensures AvoidsOutOfRange(e, s, req) <==> MIN_VOLUME_SIZE_BYTES <= Asked(req) <= FreeBytes(e, s.lvs)
    {
      AvoidsOutOfRangeExactly(e, s, req);
    }
    hide AvoidsOutOfRange;
    if TWO_63 <= FreeBytes(e, s.lvs) {
      var smallest := CreateRequest("a", 1, None);
      assert Validate(smallest).Ok? && AvoidsOutOfRange(e, s, smallest);
    }
  }
}
