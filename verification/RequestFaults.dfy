/** One CreateVolume or DeleteVolume served alone, for every combination of what its remote calls come to. */
module RequestFaults {
  import opened Status
  import opened MachineInts
  import opened VolumeStore
  import opened Provisioning
  import opened ProvisioningSafety
  import opened Convergence

  /** The request names a volume, asks for a capability, and gives no negative size or limit. */
  predicate WellAsked(req: CreateRequest) {
    && req.name != "" && req.capabilities > 0
    && (req.range.Some? ==> 0 <= req.range.value.required && 0 <= req.range.value.limit)
  }

  /** The size asked for, 512 MiB when none is given. */
  function SizeAsked(req: CreateRequest): int {
    if req.range.Some? then req.range.value.required else 536870912
  }

  /** Validation accepts exactly the well asked requests, with their size; everything else is an InvalidArgument. */
  lemma ValidateExactly(req: CreateRequest)
    ensures Validate(req).Ok? <==> WellAsked(req)
    ensures Validate(req).Ok? ==> Validate(req).value == Asked(req) == SizeAsked(req)
    ensures Validate(req).Err? ==> Validate(req).code == InvalidArgument
  {
  }

  /** The free bytes are the figure less the reserve: the group's size, or what is not allocated of it. */
  lemma FreeBytesExactly(e: Env, lvs: Store)
    requires WellFormed(e, lvs)
    ensures var figure := if e.figure == Total then e.size else e.size - Allocated(lvs);
      FreeBytes(e, lvs) == if figure <= e.spare then 0 else figure - e.spare
  {
  }

  /** A live volume bears the name. */
  ghost predicate Bears(lvs: Store, u: int, name: string) {
    0 <= u < |lvs| && lvs[u].live && lvs[u].name == name
  }

  ghost predicate Taken(lvs: Store, name: string) {
    exists u :: Bears(lvs, u, name)
  }

  /** The remote call was carried out, answered or not. */
  predicate Done(o: Outcome) {
    o.Answered? || o.Lost?
  }

  /** The request is well asked, the figure was answered, and the size is within 512 MiB and that figure. */
  ghost predicate Passes(e: Env, lvs: Store, req: CreateRequest, o1: Outcome) {
    WellAsked(req) && o1.Answered? && 536870912 <= SizeAsked(req) <= FreeBytes(e, lvs)
  }

  /** The lookup was answered with a volume of the very size asked for. */
  ghost predicate Reuses(e: Env, lvs: Store, req: CreateRequest, o1: Outcome, o2: Outcome) {
    && Passes(e, lvs, req, o1) && o2.Answered?
    && exists u :: Bears(lvs, u, SafeName(e, req.name)) && lvs[u].capacity == SizeAsked(req)
  }

  /** The lookup was answered with no volume, or refused with NotFound: only then is a volume asked for. */
  ghost predicate Makes(e: Env, lvs: Store, req: CreateRequest, o1: Outcome, o2: Outcome) {
    && Passes(e, lvs, req, o1)
    && (o2 == Refused(NotFound) || (o2.Answered? && !Taken(lvs, SafeName(e, req.name))))
  }

  /** LVM accepts the size, the name is free, and the rounded size fits. */
  ghost predicate Addable(e: Env, lvs: Store, req: CreateRequest) {
    && WellAsked(req) && SizeAsked(req) >= 0 && e.accepts(SizeAsked(req)) && !Taken(lvs, SafeName(e, req.name))
    && Allocated(lvs) + e.round(SizeAsked(req)) <= e.size
  }

  /** The request that arrives and is then served alone. */
  ghost function Served(e: Env, s: State, req: CreateRequest, o1: Outcome, o2: Outcome, o3: Outcome, o4: Outcome)
    : State
  {
    Run(e, s, [NewCreate(req)] + Polls(|s.calls|, [o1, o2, o3, o4]))
  }

  /** The request's own end. */
  ghost function EndOf(t: State, i: nat): Option<CreateStage> {
    if i < |t.calls| && t.calls[i].CreateCall? then Some(t.calls[i].create) else None
  }

  /** How a request ends at a remote call that was refused, lost or abandoned. */
  function Failed(o: Outcome): CreateStage {
    match o
    case Refused(code) => Created(Err(code))
    case Cut => CreateDropped
    case _ => Created(Err(Unavailable))
  }

  /** One volume with one more format. */
  function Formatted(lvs: Store, u: nat, id: nat): Store
    requires u < |lvs|
  {
    lvs[u := lvs[u].(formats := lvs[u].formats + [id], blank := true)]
  }

  lemma ServeStep(e: Env, lvs: Store, id: nat, req: CreateRequest, stage: CreateStage, o: Outcome, rest: seq<Outcome>)
    ensures var (later, next) := StepCreate(e, lvs, id, req, stage, o);
      Serve(e, lvs, id, req, stage, [o] + rest) == Serve(e, later, id, req, next, rest)
  {
    assert ([o] + rest)[1..] == rest;
    hide StepCreate;
  }

  /** The last remote call: formatting the volume found or made. */
  lemma FormatCall(e: Env, lvs: Store, id: nat, req: CreateRequest, u: nat, o: Outcome, rest: seq<Outcome>)
    requires ValidEnv(e) && WellFormed(e, lvs) && Bears(lvs, u, SafeName(e, req.name))
    ensures Serve(e, lvs, id, req, Format(Info(lvs, u)), [o] + rest) ==
      (if Done(o) then Formatted(lvs, u, id) else lvs,
       if o.Answered? then Created(Ok(CsiVolume(u, lvs[u].name, AsI64(ToWire(lvs[u].capacity))))) else Failed(o))
  {
    var name := SafeName(e, req.name);
    FindNameExact(e, lvs, name, u);
    ServeStep(e, lvs, id, req, Format(Info(lvs, u)), o, rest);
    var (later, next) := StepCreate(e, lvs, id, req, Format(Info(lvs, u)), o);
    ServeSettled(e, later, id, req, next, rest);
    hide Serve, FindName;
  }

  /**
   * The format step of a create in whatever state the others have left: carried out, it wipes exactly the live
   * volume of the name; answered, it gives the volume found or made before, or NotFound when no volume of the
   * name is left.
   */
  lemma FormatStepExactly(e: Env, s: State, i: nat, req: CreateRequest, info: LvInfo, o: Outcome)
    requires WellFormed(e, s.lvs) && i < |s.calls| && s.calls[i] == CreateCall(req, Format(info))
    ensures var t, name := Apply(e, s, Poll(i, o)), SafeName(e, req.name);
      && |t.lvs| == |s.lvs|
      && (forall u :: 0 <= u < |s.lvs| ==>
            t.lvs[u] == if Done(o) && Bears(s.lvs, u, name)
                        then s.lvs[u].(formats := s.lvs[u].formats + [i], blank := true) else s.lvs[u])
      && t.calls == s.calls[i := CreateCall(req,
           if !o.Answered? then Failed(o)
           else if Taken(s.lvs, name) then Created(Ok(CsiVolume(info.uuid, info.name, AsI64(info.capacityBytes))))
           else Created(Err(NotFound)))]
  {
    var name := SafeName(e, req.name);
    FormatLvEffect(e, s.lvs, name, i);
    FindNameSound(s.lvs, name);
    if FindName(s.lvs, name).Some? {
      var u := FindName(s.lvs, name).value;
      assert Bears(s.lvs, u, name);
      forall w | Bears(s.lvs, w, name) ensures w == u {
        assert Live(s.lvs, w);
      }
    } else {
      forall u ensures !Bears(s.lvs, u, name) {
        assert Bears(s.lvs, u, name) ==> Live(s.lvs, u);
      }
    }
    hide FindName, WellFormed, SafeName;
  }

  /** Asking for a volume, and formatting it. */
  lemma AddCalls(e: Env, lvs: Store, id: nat, req: CreateRequest, o3: Outcome, o4: Outcome)
    requires ValidEnv(e) && WellFormed(e, lvs) && WellAsked(req)
    ensures var added := lvs + [Volume(SafeName(e, req.name), e.round(SizeAsked(req)), Some(id), true, [], true)];
      var reached := o3.Answered? && Addable(e, lvs, req);
      Serve(e, lvs, id, req, Add, [o3, o4]) ==
        (if Addable(e, lvs, req) && Done(o3)
         then (if reached && Done(o4) then Formatted(added, |lvs|, id) else added) else lvs,
         if !o3.Answered? then Failed(o3)
         else if !Addable(e, lvs, req) then Created(Err(InvalidArgument))
         else if !o4.Answered? then Failed(o4)
         else Created(Ok(CsiVolume(|lvs|, added[|lvs|].name, AsI64(ToWire(added[|lvs|].capacity))))))
  {
    var name := SafeName(e, req.name);
    ValidateExactly(req);
    FindNameSound(lvs, name);
    assert Taken(lvs, name) <==> FindName(lvs, name).Some? by {
      if FindName(lvs, name).Some? {
        assert Bears(lvs, FindName(lvs, name).value, name);
      }
      if u :| Bears(lvs, u, name) {
        assert Live(lvs, u);
      }
    }
    AddLvEffect(e, lvs, name, Asked(req), id);
    assert [o3] + [o4] == [o3, o4] && [o4] + [] == [o4];
    ServeStep(e, lvs, id, req, Add, o3, [o4]);
    var (later, next) := StepCreate(e, lvs, id, req, Add, o3);
    if next.Format? {
      FormatCall(e, later, id, req, |lvs|, o4, []);
    } else {
      ServeSettled(e, later, id, req, next, [o4]);
    }
    hide Serve, FindName, Validate, ParseCapacity, WellFormed;
  }

  /** The answered lookup on an admitted request. */
  lemma LookUpCall(e: Env, lvs: Store, id: nat, req: CreateRequest, o1: Outcome, o2: Outcome, o3: Outcome, o4: Outcome)
    requires ValidEnv(e) && WellFormed(e, lvs) && Passes(e, lvs, req, o1)
    ensures var whole := Serve(e, lvs, id, req, LookUp, [o2, o3, o4]);
      && (Makes(e, lvs, req, o1, o2) ==> whole == Serve(e, lvs, id, req, Add, [o3, o4]))
      && (Reuses(e, lvs, req, o1, o2) ==>
            exists u :: Bears(lvs, u, SafeName(e, req.name)) && lvs[u].capacity == SizeAsked(req)
              && whole == Serve(e, lvs, id, req, Format(Info(lvs, u)), [o3, o4]))
      && (!Makes(e, lvs, req, o1, o2) && !Reuses(e, lvs, req, o1, o2) ==>
            whole == (lvs, if o2.Answered? then Created(Err(AlreadyExists)) else Failed(o2)))
  {
    var name := SafeName(e, req.name);
    ValidateExactly(req);
    FindNameSound(lvs, name);
    assert [o2] + [o3, o4] == [o2, o3, o4];
    ServeStep(e, lvs, id, req, LookUp, o2, [o3, o4]);
    var next := StepCreate(e, lvs, id, req, LookUp, o2).1;
    var found := FindName(lvs, name);
    if found.Some? {
      assert Bears(lvs, found.value, name);
      LiveSizeOnWire(e, lvs, found.value);
      forall u | Bears(lvs, u, name) ensures u == found.value {
        assert Live(lvs, u);
      }
    } else {
      forall u ensures !Bears(lvs, u, name) {
        assert Bears(lvs, u, name) ==> Live(lvs, u);
      }
    }
    if next.Created? || next.CreateDropped? {
      ServeSettled(e, lvs, id, req, next, [o3, o4]);
    }
    hide Serve, FindName, Validate, ParseCapacity, WellFormed, FreeBytes;
  }

  /** Validation and the answered figure. */
  lemma FirstCall(e: Env, s: State, req: CreateRequest, o1: Outcome, o2: Outcome, o3: Outcome, o4: Outcome)
    requires ValidEnv(e) && WellFormed(e, s.lvs)
    ensures var i := |s.calls|;
      var t := Served(e, s, req, o1, o2, o3, o4);
      && |t.calls| == i + 1 && EndOf(t, i).Some? && t.calls[..i] == s.calls
      && (t.lvs, EndOf(t, i).value) ==
           if !WellAsked(req) then (s.lvs, Created(Err(InvalidArgument)))
           else if !o1.Answered? then (s.lvs, if o1.Cut? then CreateDropped else Created(Err(Internal)))
           else if !Passes(e, s.lvs, req, o1) then (s.lvs, Created(Err(OutOfRange)))
           else Serve(e, s.lvs, i, req, LookUp, [o2, o3, o4])
  {
    var i, s1 := |s.calls|, Apply(e, s, NewCreate(req));
    var outcomes := [o1, o2, o3, o4];
    ValidateExactly(req);
    RunFront(e, s, NewCreate(req), Polls(i, outcomes));
    ServeIsRun(e, s1, i, outcomes);
    assert [o1] + [o2, o3, o4] == outcomes;
    if WellAsked(req) {
      ServeStep(e, s.lvs, i, req, AskFree, o1, [o2, o3, o4]);
      var next := StepCreate(e, s.lvs, i, req, AskFree, o1).1;
      if next.Created? || next.CreateDropped? {
        ServeSettled(e, s.lvs, i, req, next, [o2, o3, o4]);
      }
    } else {
      ServeSettled(e, s.lvs, i, req, s1.calls[i].create, outcomes);
    }
    hide Serve, Run, Validate, ParseCapacity, FreeBytes, WellFormed, Polls;
  }

  /** What the whole request comes to once it has passed the range check and the lookup. */
  lemma CreateServed(e: Env, s: State, req: CreateRequest, o1: Outcome, o2: Outcome, o3: Outcome, o4: Outcome)
    returns (u: nat)
    requires ValidEnv(e) && WellFormed(e, s.lvs)
    ensures Reuses(e, s.lvs, req, o1, o2) ==>
      && Bears(s.lvs, u, SafeName(e, req.name)) && s.lvs[u].capacity == SizeAsked(req)
      && var t := Served(e, s, req, o1, o2, o3, o4);
         && t.lvs == (if Done(o3) then Formatted(s.lvs, u, |s.calls|) else s.lvs)
         && EndOf(t, |s.calls|) == Some(
              if o3.Answered? then Created(Ok(CsiVolume(u, s.lvs[u].name, AsI64(ToWire(s.lvs[u].capacity)))))
              else Failed(o3))
    ensures Makes(e, s.lvs, req, o1, o2) ==>
      var t := Served(e, s, req, o1, o2, o3, o4);
      EndOf(t, |s.calls|).Some?
      && (t.lvs, EndOf(t, |s.calls|).value) == Serve(e, s.lvs, |s.calls|, req, Add, [o3, o4])
    ensures Passes(e, s.lvs, req, o1) && !Reuses(e, s.lvs, req, o1, o2) && !Makes(e, s.lvs, req, o1, o2) ==>
      var t := Served(e, s, req, o1, o2, o3, o4);
      && t.lvs == s.lvs
      && EndOf(t, |s.calls|) == Some(if o2.Answered? then Created(Err(AlreadyExists)) else Failed(o2))
  {
    FirstCall(e, s, req, o1, o2, o3, o4);
    u := 0;
    if Passes(e, s.lvs, req, o1) {
      LookUpCall(e, s.lvs, |s.calls|, req, o1, o2, o3, o4);
      hide Serve, Served, Passes, WellFormed, SafeName, SizeAsked, Run;
      if Reuses(e, s.lvs, req, o1, o2) {
        u :| Bears(s.lvs, u, SafeName(e, req.name)) && s.lvs[u].capacity == SizeAsked(req)
             && Serve(e, s.lvs, |s.calls|, req, LookUp, [o2, o3, o4])
                == Serve(e, s.lvs, |s.calls|, req, Format(Info(s.lvs, u)), [o3, o4]);
        assert [o3] + [o4] == [o3, o4];
        FormatCall(e, s.lvs, |s.calls|, req, u, o3, [o4]);
      }
    }
  }

  /**
   * When a create served alone is answered OK, for every combination of what its remote calls come to: it has
   * passed the range check, and either the lookup was answered with a volume of its size and the format was
   * answered, or the lookup gave no volume, one could be added, and both the addition and the format were
   * answered. The reply is the volume of the name: the old one, or the one added.
   */
  lemma CreateOkExactly(e: Env, s: State, req: CreateRequest, o1: Outcome, o2: Outcome, o3: Outcome, o4: Outcome)
    requires ValidEnv(e) && WellFormed(e, s.lvs)
    ensures var reply := ReplyOf(Served(e, s, req, o1, o2, o3, o4), |s.calls|);
      && (reply.Some? && reply.value.Ok? <==>
            && o3.Answered?
            && (Reuses(e, s.lvs, req, o1, o2)
                || (Makes(e, s.lvs, req, o1, o2) && Addable(e, s.lvs, req) && o4.Answered?)))
      && (reply.Some? && reply.value.Ok? ==>
            var v, t := reply.value.value, Served(e, s, req, o1, o2, o3, o4);
            && Bears(t.lvs, v.volumeId, SafeName(e, req.name)) && v.name == SafeName(e, req.name)
            && v.capacityBytes == (if t.lvs[v.volumeId].capacity < 0x8000_0000_0000_0000
                                   then t.lvs[v.volumeId].capacity
                                   else t.lvs[v.volumeId].capacity - 0x1_0000_0000_0000_0000)
            && t.lvs[v.volumeId].capacity
                 == (if v.volumeId < |s.lvs| then SizeAsked(req) else e.round(SizeAsked(req))))
  {
    FirstCall(e, s, req, o1, o2, o3, o4);
    var u := CreateServed(e, s, req, o1, o2, o3, o4);
    if WellAsked(req) {
      AddCalls(e, s.lvs, |s.calls|, req, o3, o4);
    }
    hide Serve, Served, Run, SafeName, FreeBytes;
    if Reuses(e, s.lvs, req, o1, o2) {
      LiveSizeOnWire(e, s.lvs, u);
    }
  }

  /** When a volume is added, and that nothing else is: asked for as above, possible, and the call carried out. */
  lemma CreateMakesExactly(e: Env, s: State, req: CreateRequest, o1: Outcome, o2: Outcome, o3: Outcome, o4: Outcome)
    requires ValidEnv(e) && WellFormed(e, s.lvs)
    ensures var t := Served(e, s, req, o1, o2, o3, o4);
      && |s.lvs| <= |t.lvs| <= |s.lvs| + 1
      && (|t.lvs| == |s.lvs| + 1 <==> Makes(e, s.lvs, req, o1, o2) && Addable(e, s.lvs, req) && Done(o3))
      && (|t.lvs| == |s.lvs| + 1 ==>
            var added := t.lvs[|s.lvs|];
            && added.live && added.name == SafeName(e, req.name) && added.maker == Some(|s.calls|)
            && added.capacity == e.round(SizeAsked(req)) && added.blank
            && added.formats == if o3.Answered? && Done(o4) then [|s.calls|] else [])
  {
    FirstCall(e, s, req, o1, o2, o3, o4);
    var u := CreateServed(e, s, req, o1, o2, o3, o4);
    if WellAsked(req) {
      AddCalls(e, s.lvs, |s.calls|, req, o3, o4);
    }
    hide Serve, Served, Run, SafeName, FreeBytes;
  }

  /**
   * Which of the volumes there were changes: exactly the one the lookup gave, when that was of the size asked
   * for and the format was carried out; it is wiped, and its history gets this request.
   */
  lemma CreateWipesExactly(e: Env, s: State, req: CreateRequest, o1: Outcome, o2: Outcome, o3: Outcome, o4: Outcome)
    requires ValidEnv(e) && WellFormed(e, s.lvs)
    ensures var t := Served(e, s, req, o1, o2, o3, o4);
      |s.lvs| <= |t.lvs|
      && forall u :: 0 <= u < |s.lvs| ==>
           t.lvs[u] == if Reuses(e, s.lvs, req, o1, o2) && Done(o3) && Bears(s.lvs, u, SafeName(e, req.name))
                       then s.lvs[u].(formats := s.lvs[u].formats + [|s.calls|], blank := true) else s.lvs[u]
  {
    FirstCall(e, s, req, o1, o2, o3, o4);
    var target := CreateServed(e, s, req, o1, o2, o3, o4);
    if WellAsked(req) {
      AddCalls(e, s.lvs, |s.calls|, req, o3, o4);
    }
    hide Serve, Served, Run, SafeName, FreeBytes;
    if Reuses(e, s.lvs, req, o1, o2) {
      forall u | Bears(s.lvs, u, SafeName(e, req.name)) ensures u == target {
        assert Live(s.lvs, u) && Live(s.lvs, target);
      }
    }
  }

  /** The request ended with this status. */
  ghost predicate RefusedWith(t: State, i: nat, code: Code) {
    ReplyOf(t, i) == Some(Err(code))
  }

  /**
   * What a create that is not answered OK is answered instead, by the first thing that went wrong; and that one
   * dropped while it waits for a remote call gets no reply.
   */
  lemma CreateRefusals(e: Env, s: State, req: CreateRequest, o1: Outcome, o2: Outcome, o3: Outcome, o4: Outcome)
    requires ValidEnv(e) && WellFormed(e, s.lvs)
    ensures var i, t := |s.calls|, Served(e, s, req, o1, o2, o3, o4);
      var passes := Passes(e, s.lvs, req, o1);
      var reuses, makes := Reuses(e, s.lvs, req, o1, o2), Makes(e, s.lvs, req, o1, o2);
      var added := makes && Addable(e, s.lvs, req) && o3.Answered?;
      && (!WellAsked(req) ==> RefusedWith(t, i, InvalidArgument))
      && (WellAsked(req) && (o1.Refused? || o1.Lost?) ==> RefusedWith(t, i, Internal))
      && (WellAsked(req) && o1.Answered? && !passes ==> RefusedWith(t, i, OutOfRange))
      && (passes && o2.Answered? && !reuses && !makes ==> RefusedWith(t, i, AlreadyExists))
      && (passes && o2.Refused? && o2.code != NotFound ==> RefusedWith(t, i, o2.code))
      && (passes && o2.Lost? ==> RefusedWith(t, i, Unavailable))
      && (makes && o3.Answered? && !Addable(e, s.lvs, req) ==> RefusedWith(t, i, InvalidArgument))
      && ((makes || reuses) && o3.Refused? ==> RefusedWith(t, i, o3.code))
      && ((makes || reuses) && o3.Lost? ==> RefusedWith(t, i, Unavailable))
      && (added && o4.Refused? ==> RefusedWith(t, i, o4.code))
      && (added && o4.Lost? ==> RefusedWith(t, i, Unavailable))
      && (EndOf(t, i) == Some(CreateDropped) <==>
            || (WellAsked(req) && o1.Cut?) || (passes && o2.Cut?) || ((makes || reuses) && o3.Cut?)
            || (added && o4.Cut?))
  {
    FirstCall(e, s, req, o1, o2, o3, o4);
    var u := CreateServed(e, s, req, o1, o2, o3, o4);
    if WellAsked(req) {
      AddCalls(e, s.lvs, |s.calls|, req, o3, o4);
    }
    hide Serve, Served, Run, SafeName, FreeBytes, Taken;
  }

  /** The delete that arrives and is then served alone. */
  ghost function DeleteServed(e: Env, s: State, id: VolumeId, lookup: Outcome, removal: Outcome): State {
    Run(e, s, [NewDelete(id)] + Polls(|s.calls|, [lookup, removal]))
  }

  /** The name a delete goes on to remove, when its lookup is answered with a volume. */
  ghost predicate GoesOnTo(lvs: Store, id: VolumeId, lookup: Outcome, name: string) {
    && lookup.Answered?
    && match id
       case Managed(u) => Live(lvs, u) && lvs[u].name == name
       case Elsewhere(other) => name == other
       case _ => false
  }

  /** How the delete ended: answered OK, answered with a status, or dropped. */
  datatype DeleteEnd = EndedOk | EndedWith(code: Code) | EndedDropped

  ghost predicate DeleteEnds(t: State, i: nat, end: DeleteEnd) {
    && |t.calls| == i + 1 && t.calls[i].DeleteCall?
    && match end
       case EndedOk => t.calls[i].delete.Deleted? && t.calls[i].delete.result.Ok?
       case EndedWith(code) => t.calls[i].delete.Deleted? && t.calls[i].delete.result == Err(code)
       case EndedDropped => t.calls[i].delete.DeleteDropped?
  }

  lemma DeleteCalls(e: Env, s: State, id: VolumeId, lookup: Outcome, removal: Outcome)
    ensures var i, t := |s.calls|, DeleteServed(e, s, id, lookup, removal);
      var first := NewDeleteCall(id, |s.lvs|).delete;
      var (found, seen) := StepDelete(s.lvs, id, first, lookup);
      var (later, last) := StepDelete(found, id, seen, removal);
      t == State(later, s.calls + [DeleteCall(id, |s.lvs|, last)])
  {
    var i, s1 := |s.calls|, Apply(e, s, NewDelete(id));
    RunFront(e, s, NewDelete(id), Polls(i, [lookup, removal]));
    ServeDeleteIsRun(e, s1, i, [lookup, removal]);
    assert [lookup, removal][1..] == [removal] && [removal][1..] == [];
    var (found, seen) := StepDelete(s.lvs, id, s1.calls[i].delete, lookup);
    assert ServeDelete(found, id, seen, [removal]) == StepDelete(found, id, seen, removal);
    hide StepDelete, Run;
  }

  /** What the delete remembers of its lookup. */
  ghost predicate Remembers(t: State, i: nat, seen: Seen) {
    i < |t.calls| && t.calls[i].DeleteCall? && (t.calls[i].delete.Deleted? ==> t.calls[i].delete.seen == seen)
  }

  /** One that does not go on to a removal changes nothing; all but an empty id and a dropped one are answered OK. */
  lemma DeleteWithoutRemoval(e: Env, s: State, id: VolumeId, lookup: Outcome, removal: Outcome)
    requires forall name :: !GoesOnTo(s.lvs, id, lookup, name)
    ensures var t := DeleteServed(e, s, id, lookup, removal);
      && t.lvs == s.lvs
      && DeleteEnds(t, |s.calls|, if id.Missing? then EndedWith(InvalidArgument)
                                  else if lookup.Cut? then EndedDropped else EndedOk)
      && Remembers(t, |s.calls|, if id.Missing? then SawNothing
                                 else if id.Managed? && lookup.Answered? then SawNotFound else SawError)
  {
    DeleteCalls(e, s, id, lookup, removal);
    if id.Managed? && Live(s.lvs, id.uuid) {
      assert !GoesOnTo(s.lvs, id, lookup, s.lvs[id.uuid].name);
    }
    if id.Elsewhere? {
      assert !GoesOnTo(s.lvs, id, lookup, id.name);
    }
    hide DeleteServed;
  }

  /**
   * One that goes on removes exactly the live volume of the name, if there is one and the call is carried out,
   * and is answered what that call comes to: InvalidArgument when there is no such volume.
   */
  lemma DeleteWithRemoval(e: Env, s: State, id: VolumeId, lookup: Outcome, removal: Outcome, name: string)
    requires WellFormed(e, s.lvs) && GoesOnTo(s.lvs, id, lookup, name)
    ensures var t := DeleteServed(e, s, id, lookup, removal);
      && |t.lvs| == |s.lvs|
      && (forall u :: 0 <= u < |s.lvs| ==>
            t.lvs[u] == if Done(removal) && Bears(s.lvs, u, name) then s.lvs[u].(live := false) else s.lvs[u])
      && DeleteEnds(t, |s.calls|,
           match removal
           case Answered => if Taken(s.lvs, name) then EndedOk else EndedWith(InvalidArgument)
           case Refused(code) => EndedWith(code)
           case Lost => EndedWith(Unavailable)
           case Cut => EndedDropped)
      && Remembers(t, |s.calls|, SawFound)
      && t.calls[|s.calls|].issued == |s.lvs|
  {
    DeleteCalls(e, s, id, lookup, removal);
    RemovedByName(e, s.lvs, name);
    hide DeleteServed, RemoveLv, WellFormed, Bears, Taken;
  }

  /** Removing by name takes the live volume that bears it, if one does. */
  lemma RemovedByName(e: Env, lvs: Store, name: string)
    requires WellFormed(e, lvs)
    ensures RemoveLv(lvs, name).Ok? <==> Taken(lvs, name)
    ensures RemoveLv(lvs, name).Err? ==> RemoveLv(lvs, name).code == InvalidArgument && forall u :: !Bears(lvs, u, name)
    ensures RemoveLv(lvs, name).Ok? ==>
      var later := RemoveLv(lvs, name).value;
      && |later| == |lvs|
      && forall u :: 0 <= u < |lvs| ==>
           later[u] == if Bears(lvs, u, name) then lvs[u].(live := false) else lvs[u]
  {
    RemoveLvEffect(e, lvs, name);
    FindNameSound(lvs, name);
    hide FindName;
    if RemoveLv(lvs, name).Ok? {
      var u :| Live(lvs, u) && lvs[u].name == name;
      assert Bears(lvs, u, name);
      var later := RemoveLv(lvs, name).value;
      forall w | 0 <= w < |lvs| ensures later[w].live <==> lvs[w].live && lvs[w].name != name {
        assert Live(later, w) <==> Live(lvs, w) && lvs[w].name != name;
      }
    }
    forall u ensures Bears(lvs, u, name) ==> RemoveLv(lvs, name).Ok? {
      assert Bears(lvs, u, name) ==> Live(lvs, u);
    }
  }
}
