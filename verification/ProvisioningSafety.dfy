/** Safety of provisioning over every run, whatever the interleaving, failures and retries. */
module ProvisioningSafety {
  import opened Status
  import opened MachineInts
  import opened Numerals
  import opened VolumeStore
  import opened Provisioning
  import opened ProvisioningInvariant

  /** Request `i` is a create answered OK with `v`. */
  predicate CreatedOk(s: State, i: nat, v: CsiVolume) {
    i < |s.calls| && s.calls[i].CreateCall? && s.calls[i].create == Created(Ok(v))
  }

  /** Request `i` is a delete of managed UUID `u`, answered OK after its lookup came out as `seen`. */
  predicate DeletedOk(s: State, i: nat, u: nat, seen: Seen) {
    i < |s.calls| && s.calls[i].DeleteCall? && s.calls[i].id == Managed(u) && s.calls[i].delete == Deleted(Ok(()), seen)
  }

  predicate NoDeletes(events: seq<Event>) {
    forall k :: 0 <= k < |events| ==> !events[k].NewDelete?
  }

  lemma ReachableInv(e: Env, s0: State, events: seq<Event>)
    requires ValidEnv(e) && Initial(e, s0)
    ensures Inv(e, Run(e, s0, events)) && Grows(s0, Run(e, s0, events))
  {
    InitialInv(e, s0);
    RunKeepsInv(e, s0, events);
  }

  /** A live volume's size survives the trip through the wire types. */
  lemma LiveSizeOnWire(e: Env, lvs: Store, u: nat)
    requires ValidEnv(e) && WellFormed(e, lvs) && Live(lvs, u)
    ensures ToWire(lvs[u].capacity) == lvs[u].capacity <= e.size
  {
    AllocatedBounds(lvs, u);
  }

  /**
   * Create agreement in runs that also delete: two OK replies for names with equal digests name the very
   * same volume, unless one of the volumes replied has been removed since.
   */
  lemma CreateAgreement(e: Env, s0: State, events: seq<Event>, i: nat, v: CsiVolume, j: nat, w: CsiVolume)
    requires ValidEnv(e) && Initial(e, s0)
    requires CreatedOk(Run(e, s0, events), i, v) && CreatedOk(Run(e, s0, events), j, w)
    ensures var s := Run(e, s0, events);
      Live(s.lvs, v.volumeId) && Live(s.lvs, w.volumeId) ==>
        (v == w <==> e.digest(s.calls[i].req.name) == e.digest(s.calls[j].req.name))
  {
    var s := Run(e, s0, events);
    ReachableInv(e, s0, events);
    assert CallOk(e, s, i) && CallOk(e, s, j);
    HexNameInjective(e.digest(s.calls[i].req.name), e.digest(s.calls[j].req.name));
  }

  /** Every volume ever made still exists, and nobody has asked for a removal. */
  ghost predicate Undeleted(s: State) {
    && (forall u :: 0 <= u < |s.lvs| ==> s.lvs[u].live)
    && (forall i :: 0 <= i < |s.calls| ==> s.calls[i].CreateCall?)
  }

  lemma UndeletedStep(e: Env, s: State, event: Event)
    requires WellFormed(e, s.lvs) && Undeleted(s) && !event.NewDelete?
    ensures Undeleted(Apply(e, s, event))
  {
    if event.Poll? && event.call < |s.calls| {
      var i := event.call;
      assert s.calls[i].CreateCall?;
      CreateStepKeepsLive(e, s.lvs, i, s.calls[i].req, s.calls[i].create, event.outcome);
      hide StepCreate, WellFormed;
    }
  }

  /** A step of a create removes nothing. */
  lemma CreateStepKeepsLive(e: Env, lvs: Store, i: nat, req: CreateRequest, stage: CreateStage, outcome: Outcome)
    requires WellFormed(e, lvs) && forall u :: 0 <= u < |lvs| ==> lvs[u].live
    ensures var later := StepCreate(e, lvs, i, req, stage, outcome).0; forall u :: 0 <= u < |later| ==> later[u].live
  {
    if stage.Add? {
      AddLvEffect(e, lvs, SafeName(e, req.name), Asked(req), i);
      hide WellFormed, StoreGrows;
    } else if stage.Format? {
      FormatLvEffect(e, lvs, SafeName(e, req.name), i);
      hide WellFormed, StoreGrows;
    }
  }

  /** Without deletes every volume stays. */
  lemma {:induction false} NothingRemoved(e: Env, s0: State, events: seq<Event>)
    requires ValidEnv(e) && Initial(e, s0) && NoDeletes(events)
    ensures Undeleted(Run(e, s0, events))
  {
    if events != [] {
      var front := events[..|events| - 1];
      NothingRemoved(e, s0, front);
      ReachableInv(e, s0, front);
      UndeletedStep(e, Run(e, s0, front), events[|events| - 1]);
    }
  }

  /** Without deletes at most one volume ever exists per stored name, whatever crashed and whatever was answered. */
  lemma OneVolumePerName(e: Env, s0: State, events: seq<Event>, a: nat, b: nat)
    requires ValidEnv(e) && Initial(e, s0) && NoDeletes(events)
    requires a < |Run(e, s0, events).lvs| && b < |Run(e, s0, events).lvs|
    ensures Run(e, s0, events).lvs[a].name == Run(e, s0, events).lvs[b].name <==> a == b
  {
    ReachableInv(e, s0, events);
    NothingRemoved(e, s0, events);
    assert Live(Run(e, s0, events).lvs, a) && Live(Run(e, s0, events).lvs, b);
  }

  /**
   * Create agreement, in runs with no deletes: all OK replies for a digest carry the UUID of its one volume
   * and report that volume's capacity; and every request so answered whose size LVM does not round asked for
   * exactly that capacity.
   */
  lemma CreateAgreementNoDeletes(e: Env, s0: State, events: seq<Event>, i: nat, v: CsiVolume, j: nat, w: CsiVolume)
    requires ValidEnv(e) && Initial(e, s0) && NoDeletes(events)
    requires CreatedOk(Run(e, s0, events), i, v) && CreatedOk(Run(e, s0, events), j, w)
    ensures var s := Run(e, s0, events);
      && (v.volumeId == w.volumeId <==> e.digest(s.calls[i].req.name) == e.digest(s.calls[j].req.name))
      && (v.volumeId == w.volumeId ==> v == w)
      && (e.round(Asked(s.calls[i].req)) == Asked(s.calls[i].req) ==> Asked(s.calls[i].req) == v.capacityBytes)
      && (e.round(Asked(s.calls[j].req)) == Asked(s.calls[j].req) ==> Asked(s.calls[j].req) == w.capacityBytes)
  {
    hide Run, HexName;
    var s := Run(e, s0, events);
    ReachableInv(e, s0, events);
    NothingRemoved(e, s0, events);
    assert CallOk(e, s, i) && CallOk(e, s, j);
    CreateAgreement(e, s0, events, i, v, j, w);
    assert Live(s.lvs, v.volumeId) && Live(s.lvs, w.volumeId);
    LiveSizeOnWire(e, s.lvs, v.volumeId);
  }

  /**
   * Delete is final: once a delete of a managed UUID is answered OK after its lookup found the volume, or
   * after it failed with NotFound for a UUID issued before the request, no later state of any run has it.
   */
  lemma DeleteIsFinal(e: Env, s0: State, events: seq<Event>, more: seq<Event>, i: nat, u: nat, seen: Seen)
    requires ValidEnv(e) && Initial(e, s0)
    requires DeletedOk(Run(e, s0, events), i, u, seen)
    requires seen == SawFound || (seen == SawNotFound && u < Run(e, s0, events).calls[i].issued)
    ensures !Live(Run(e, s0, events + more).lvs, u)
  {
    var s := Run(e, s0, events);
    ReachableInv(e, s0, events);
    assert CallOk(e, s, i);
    RunConcat(e, s0, events, more);
    RunKeepsInv(e, s, more);
    var later := Run(e, s, more);
    assert VolumeGrows(s.lvs[u], later.lvs[u]);
  }

  /**
   * A delete looks up by UUID and removes by name. Its removal step takes at most one volume, and takes a
   * volume other than the requested one only if the requested one is already gone.
   */
  lemma RemovalTakesRequestedOrStale(e: Env, s0: State, events: seq<Event>, i: nat, u: nat, outcome: Outcome, w: nat)
    requires ValidEnv(e) && Initial(e, s0)
    requires var s := Run(e, s0, events);
      i < |s.calls| && s.calls[i].DeleteCall? && s.calls[i].id == Managed(u) && s.calls[i].delete.Remove?
    requires Live(Run(e, s0, events).lvs, w) && !Live(Run(e, s0, events + [Poll(i, outcome)]).lvs, w)
    ensures w == u || !Live(Run(e, s0, events).lvs, u)
    ensures forall x :: x != w ==>
      (Live(Run(e, s0, events + [Poll(i, outcome)]).lvs, x) <==> Live(Run(e, s0, events).lvs, x))
  {
    var s := Run(e, s0, events);
    ReachableInv(e, s0, events);
    assert CallOk(e, s, i);
    assert (events + [Poll(i, outcome)])[..|events|] == events;
    RemoveLvEffect(e, s.lvs, s.calls[i].delete.name);
  }

  /**
   * When a delete takes a volume nobody asked it to remove, exactly: its removal step is carried out, answered
   * or not, while the requested volume is gone and a live one bears its name.
   */
  lemma RemovalTakesOtherExactly(e: Env, s0: State, events: seq<Event>, i: nat, u: nat, outcome: Outcome)
    requires ValidEnv(e) && Initial(e, s0)
    requires var s := Run(e, s0, events);
      i < |s.calls| && s.calls[i].DeleteCall? && s.calls[i].id == Managed(u) && s.calls[i].delete.Remove?
    ensures u < |Run(e, s0, events).lvs|
    ensures var s, t := Run(e, s0, events), Run(e, s0, events + [Poll(i, outcome)]);
      (exists w :: w != u && Live(s.lvs, w) && !Live(t.lvs, w)) <==>
        && (outcome.Answered? || outcome.Lost?) && !Live(s.lvs, u)
        && exists w :: Live(s.lvs, w) && s.lvs[w].name == s.lvs[u].name
  {
    var s := Run(e, s0, events);
    ReachableInv(e, s0, events);
    assert CallOk(e, s, i);
    assert (events + [Poll(i, outcome)])[..|events|] == events;
    RemoveLvEffect(e, s.lvs, s.calls[i].delete.name);
    hide Run, RemoveLv;
  }

  /** The creates answered OK with volume `u`. */
  ghost function OkReplies(s: State, u: nat): set<nat> {
    set i: nat | i < |s.calls| && s.calls[i].CreateCall? && s.calls[i].create.Created?
                 && s.calls[i].create.result.Ok? && s.calls[i].create.result.value.volumeId == u
  }

  lemma {:induction false} SetInSeq(xs: set<nat>, list: seq<nat>)
    requires forall x :: x in xs ==> x in list
    ensures |xs| <= |list|
  {
    if list != [] {
      var last := list[|list| - 1];
      forall x | x in xs - {last} ensures x in list[..|list| - 1] {
        assert x in list;
      }
      SetInSeq(xs - {last}, list[..|list| - 1]);
    } else {
      assert forall x :: x in xs ==> x in list;
      assert xs == {};
    }
  }

  /**
   * Format matching: each OK create reply naming a volume that still exists is matched with its own format
   * of that volume (made since the volume's creation, where the history starts), no format serving two
   * replies or two volumes; so the format generation is at least the number of OK replies naming it.
   */
  lemma FormatMatching(e: Env, s0: State, events: seq<Event>, u: nat)
    requires ValidEnv(e) && Initial(e, s0) && Live(Run(e, s0, events).lvs, u)
    ensures var s := Run(e, s0, events);
      && (forall i :: i in OkReplies(s, u) ==> i in s.lvs[u].formats)
      && (forall k, l :: 0 <= k < l < |s.lvs[u].formats| ==> s.lvs[u].formats[k] != s.lvs[u].formats[l])
      && (forall w, i :: 0 <= w < |s.lvs| && i in s.lvs[u].formats && i in s.lvs[w].formats ==> w == u)
      && |OkReplies(s, u)| <= |s.lvs[u].formats|
  {
    var s := Run(e, s0, events);
    ReachableInv(e, s0, events);
    forall i | i in OkReplies(s, u) ensures i in s.lvs[u].formats {
      assert CallOk(e, s, i);
    }
    SetInSeq(OkReplies(s, u), s.lvs[u].formats);
  }

  /** In state `s` request `i` was the last to format volume `u`, and nothing was written to it since. */
  predicate BlankedBy(s: State, u: nat, i: nat) {
    u < |s.lvs| && s.lvs[u].blank && s.lvs[u].formats != [] && s.lvs[u].formats[|s.lvs[u].formats| - 1] == i
  }

  /**
   * A create answered OK has wiped the volume it replies on its way, retry or not: between any state where
   * it had no reply yet and the reply there is a state in which it left the volume blank.
   */
  lemma {:induction false} CreateWipes(e: Env, s: State, events: seq<Event>, i: nat, v: CsiVolume) returns (k: nat)
    requires ValidEnv(e) && Inv(e, s) && CreatedOk(Run(e, s, events), i, v) && !CreatedOk(s, i, v)
    requires Live(Run(e, s, events).lvs, v.volumeId)
    ensures 0 < k <= |events| && BlankedBy(Run(e, s, events[..k]), v.volumeId, i)
  {
    if events == [] {
      assert false;
    }
    var front, event := events[..|events| - 1], events[|events| - 1];
    var before := Run(e, s, front);
    RunKeepsInv(e, s, front);
    if CreatedOk(before, i, v) {
      ApplyGrows(e, before, event);
      assert CallOk(e, before, i);
      assert VolumeGrows(before.lvs[v.volumeId], Run(e, s, events).lvs[v.volumeId]);
      k := CreateWipes(e, s, front, i, v);
      assert events[..k] == front[..k];
    } else {
      k := |events|;
      assert events[..k] == events;
      LastStepFormats(e, before, event, i, v);
    }
  }

  /** The step that answers a create is its format of the replied volume. */
  lemma LastStepFormats(e: Env, s: State, event: Event, i: nat, v: CsiVolume)
    requires ValidEnv(e) && Inv(e, s)
    requires !CreatedOk(s, i, v) && CreatedOk(Apply(e, s, event), i, v) && Live(Apply(e, s, event).lvs, v.volumeId)
    ensures BlankedBy(Apply(e, s, event), v.volumeId, i)
  {
    assert event == Poll(i, Answered) && i < |s.calls|;
    assert CallOk(e, s, i);
    FormatLvEffect(e, s.lvs, SafeName(e, s.calls[i].req.name), i);
    assert Live(s.lvs, v.volumeId);
  }

  /**
   * The capacity chain i64 -> usize -> u64 -> store -> u64 -> i64 over whole runs: every volume the machine
   * made that still exists is listed, under the digest of the name its maker asked for, and with exactly the
   * non-negative size that request asked for iff LVM did not round that size.
   */
  lemma ListedAsRequested(e: Env, s0: State, events: seq<Event>, u: nat) returns (k: nat)
    requires ValidEnv(e) && Initial(e, s0)
    requires Live(Run(e, s0, events).lvs, u) && Run(e, s0, events).lvs[u].maker.Some?
    ensures var s := Run(e, s0, events);
      var m := s.lvs[u].maker.value;
      && m < |s.calls| && s.calls[m].CreateCall?
      && k < |ListFrom(s.lvs, 0)|
      && var req := s.calls[m].req;
         var listed := ProcessVolume(ListFrom(s.lvs, 0)[k]);
         && listed.volumeId == u && listed.name == SafeName(e, req.name)
         && Value(listed.name, 16) == Some(e.digest(req.name))
         && (req.range.Some? ==> 0 <= req.range.value.required == Asked(req))
         && (listed.capacityBytes == Asked(req) <==> e.round(Asked(req)) == Asked(req))
  {
    var s := Run(e, s0, events);
    ReachableInv(e, s0, events);
    assert MakerOk(e, s, u);
    LiveSizeOnWire(e, s.lvs, u);
    HexNameCodec(e.digest(s.calls[s.lvs[u].maker.value].req.name));
    hide Run, HexName, Value;
    k := ListComplete(s.lvs, 0, u);
  }
}
