/**
 * When the configured reserve can be used up, exactly, on every host: by which requests, in which order, and
 * on a group that hands out whole extents.
 */
module ReserveLimits {
  import opened Numerals
  import opened VolumeStore
  import opened Provisioning
  import opened ProvisioningInvariant
  import opened ProvisioningSafety
  import opened Reservation
  import opened Convergence

  /** A group that holds nothing, before any request. */
  const EMPTY := State([], [])

  /** More than the usable bytes are allocated. */
  predicate Overrun(e: Env, s: State) {
    Allocated(s.lvs) > Usable(e)
  }

  /** The bytes LVM gives the volumes asked for. */
  function Rounded(e: Env, reqs: seq<CreateRequest>): nat {
    if reqs == [] then 0 else Rounded(e, reqs[..|reqs| - 1]) + e.round(Asked(reqs[|reqs| - 1]))
  }

  /** Each request passes the range check of an empty group, asks for a legal size, and has a name of its own. */
  ghost predicate Eligible(e: Env, reqs: seq<CreateRequest>) {
    && (forall r :: r in reqs ==> Admissible(e, r) && e.accepts(Asked(r)))
    && (forall i, j :: 0 <= i < j < |reqs| ==> e.digest(reqs[i].name) != e.digest(reqs[j].name))
  }

  /** Requests that together need more than the usable bytes, and no more than the group has. */
  ghost predicate TooMuch(e: Env, reqs: seq<CreateRequest>) {
    Eligible(e, reqs) && Usable(e) < Rounded(e, reqs) <= e.size
  }

  /** Served in order, each finds room for what it asks for beside what the earlier ones were given. */
  ghost predicate FitInTurn(e: Env, reqs: seq<CreateRequest>) {
    forall k :: 0 <= k < |reqs| ==> Rounded(e, reqs[..k]) + Asked(reqs[k]) <= Usable(e)
  }

  lemma RoundedSnoc(e: Env, reqs: seq<CreateRequest>, r: CreateRequest)
    ensures Rounded(e, reqs + [r]) == Rounded(e, reqs) + e.round(Asked(r))
  {
    assert (reqs + [r])[..|reqs|] == reqs;
  }

  lemma {:induction false} RoundedPrefix(e: Env, reqs: seq<CreateRequest>, k: nat)
    requires k <= |reqs|
    ensures Rounded(e, reqs[..k]) <= Rounded(e, reqs)
  {
    if k == |reqs| {
      assert reqs[..k] == reqs;
    } else {
      RoundedPrefix(e, reqs[..|reqs| - 1], k);
      assert reqs[..|reqs| - 1][..k] == reqs[..k];
    }
  }

  lemma EligiblePrefix(e: Env, reqs: seq<CreateRequest>, k: nat)
    requires Eligible(e, reqs) && k <= |reqs|
    ensures Eligible(e, reqs[..k])
  {
    forall r | r in reqs[..k] ensures r in reqs {
    }
  }

  /** The store after these requests have each made their volume, oldest first, with what was formatted. */
  ghost predicate Holds(e: Env, lvs: Store, reqs: seq<CreateRequest>) {
    && WellFormed(e, lvs) && |lvs| == |reqs| && Allocated(lvs) == Rounded(e, reqs)
    && forall u :: 0 <= u < |lvs| ==> lvs[u].live && lvs[u].name == SafeName(e, reqs[u].name)
  }

  /** A name of its own is not taken by the earlier requests' volumes. */
  lemma NameFree(e: Env, lvs: Store, reqs: seq<CreateRequest>, k: nat)
    requires Eligible(e, reqs) && k < |reqs| && Holds(e, lvs, reqs[..k])
    ensures FindName(lvs, SafeName(e, reqs[k].name)).None?
  {
    FindNameSound(lvs, SafeName(e, reqs[k].name));
    forall u | Live(lvs, u) ensures lvs[u].name != SafeName(e, reqs[k].name) {
      HexNameInjective(e.digest(reqs[u].name), e.digest(reqs[k].name));
    }
  }

  /** One more of them adds its volume. */
  lemma AddsNext(e: Env, lvs: Store, reqs: seq<CreateRequest>, k: nat, id: nat)
    requires ValidEnv(e) && Eligible(e, reqs) && k < |reqs| && Holds(e, lvs, reqs[..k]) && Rounded(e, reqs) <= e.size
    ensures AddLv(e, lvs, SafeName(e, reqs[k].name), Asked(reqs[k]), id).Ok?
    ensures Holds(e, AddLv(e, lvs, SafeName(e, reqs[k].name), Asked(reqs[k]), id).value, reqs[..k + 1])
  {
    hide Rounded, HexName;
    var r := reqs[k];
    assert r in reqs;
    NameFree(e, lvs, reqs, k);
    FindNameSound(lvs, SafeName(e, r.name));
    assert reqs[..k + 1] == reqs[..k] + [r];
    RoundedSnoc(e, reqs[..k], r);
    RoundedPrefix(e, reqs, k + 1);
    AddLvEffect(e, lvs, SafeName(e, r.name), Asked(r), id);
  }

  /** All requests have arrived and passed the range check, while the group is still empty. */
  lemma {:induction false} AllAdmitted(e: Env, reqs: seq<CreateRequest>) returns (events: seq<Event>)
    requires forall r :: r in reqs ==> Admissible(e, r)
    ensures Run(e, EMPTY, events) == State([], seq(|reqs|, j requires 0 <= j < |reqs| => CreateCall(reqs[j], LookUp)))
  {
    if reqs == [] {
      events := [];
    } else {
      var k := |reqs| - 1;
      var r, front := reqs[k], reqs[..k];
      assert r in reqs;
      events := AllAdmitted(e, front);
      var before := Run(e, EMPTY, events);
      RunConcat(e, EMPTY, events, [NewCreate(r), Poll(k, Answered)]);
      RunTwo(e, before, NewCreate(r), Poll(k, Answered));
      events := events + [NewCreate(r), Poll(k, Answered)];
      hide Run;
      assert before.calls + [CreateCall(r, LookUp)]
          == seq(|reqs|, j requires 0 <= j < |reqs| => CreateCall(reqs[j], LookUp));
      assert (before.calls + [CreateCall(r, AskFree)])[k := CreateCall(r, LookUp)]
          == before.calls + [CreateCall(r, LookUp)];
    }
  }

  lemma RunTwo(e: Env, s: State, a: Event, b: Event)
    ensures Run(e, s, [a, b]) == Apply(e, Apply(e, s, a), b)
  {
    hide Apply;
    assert [a, b][..1] == [a] && [a][..0] == [];
    assert Run(e, s, [a]) == Apply(e, s, a);
  }

  /** The next admitted request looks up its name and adds its volume. */
  lemma LooksUpAndAdds(e: Env, s: State, reqs: seq<CreateRequest>, k: nat)
    requires ValidEnv(e) && Eligible(e, reqs) && Rounded(e, reqs) <= e.size && k < |reqs| == |s.calls|
    requires Holds(e, s.lvs, reqs[..k]) && s.calls[k] == CreateCall(reqs[k], LookUp)
    ensures var t := Apply(e, Apply(e, s, Poll(k, Answered)), Poll(k, Answered));
      && Holds(e, t.lvs, reqs[..k + 1]) && |t.calls| == |reqs|
      && forall j :: k < j < |reqs| ==> t.calls[j] == s.calls[j]
  {
    NameFree(e, s.lvs, reqs, k);
    AddsNext(e, s.lvs, reqs, k, k);
    hide Eligible, Holds, AddLv, FindName, FormatLv, StepDelete, SafeName, Rounded;
  }

  /** Then they look up and add their volumes one after another. */
  lemma {:induction false} AllAdded(e: Env, reqs: seq<CreateRequest>, k: nat) returns (events: seq<Event>)
    requires ValidEnv(e) && Eligible(e, reqs) && Rounded(e, reqs) <= e.size && k <= |reqs|
    ensures var s := Run(e, EMPTY, events);
      && Holds(e, s.lvs, reqs[..k]) && |s.calls| == |reqs|
      && forall j :: k <= j < |reqs| ==> s.calls[j] == CreateCall(reqs[j], LookUp)
  {
    if k == 0 {
      events := AllAdmitted(e, reqs);
    } else {
      events := AllAdded(e, reqs, k - 1);
      hide Eligible, Holds, Rounded, Apply, Run;
      var before := Run(e, EMPTY, events);
      var more := [Poll(k - 1, Answered), Poll(k - 1, Answered)];
      RunConcat(e, EMPTY, events, more);
      RunTwo(e, before, Poll(k - 1, Answered), Poll(k - 1, Answered));
      events := events + more;
      LooksUpAndAdds(e, before, reqs, k - 1);
    }
  }

  /**
   * Overlapping creates overrun: on every host, whatever the figure means, any requests that need too much
   * together are all admitted if each gets past the range check before the first adds its volume, and then
   * leave less than the reserve.
   */
  lemma OverlappingCreatesEatReserve(e: Env, reqs: seq<CreateRequest>) returns (events: seq<Event>)
    requires ValidEnv(e) && TooMuch(e, reqs)
    ensures Overrun(e, Run(e, EMPTY, events)) && Allocated(Run(e, EMPTY, events).lvs) == Rounded(e, reqs)
  {
    events := AllAdded(e, reqs, |reqs|);
    assert reqs[..|reqs|] == reqs;
  }

  /** The creates that made the live volumes, in the order of those volumes. */
  function Makers(lvs: Store, calls: seq<Call>): seq<CreateRequest> {
    if lvs == [] then []
    else
      var last := lvs[|lvs| - 1];
      var front := Makers(lvs[..|lvs| - 1], calls);
      if last.live && last.maker.Some? && last.maker.value < |calls| && calls[last.maker.value].CreateCall?
      then front + [calls[last.maker.value].req] else front
  }

  /** A volume's maker, when the machine made it. */
  lemma MakerOf(e: Env, s: State, u: nat)
    requires Inv(e, s) && u < |s.lvs| && s.lvs[u].maker.Some?
    ensures s.lvs[u].maker.value < |s.calls| && s.calls[s.lvs[u].maker.value].CreateCall?
    ensures var r := s.calls[s.lvs[u].maker.value].req;
      && Admissible(e, r) && e.accepts(Asked(r))
      && s.lvs[u].name == SafeName(e, r.name) && s.lvs[u].capacity == e.round(Asked(r))
  {
    assert MakerOk(e, s, u);
  }

  /** The next volume's part in the makers and the allocation. */
  lemma MakersSnoc(e: Env, s: State, k: nat)
    requires Inv(e, s) && k < |s.lvs| && s.lvs[k].maker.Some?
    ensures s.lvs[k].maker.value < |s.calls| && s.calls[s.lvs[k].maker.value].CreateCall?
    ensures var r := s.calls[s.lvs[k].maker.value].req;
      && Makers(s.lvs[..k + 1], s.calls)
           == (if s.lvs[k].live then Makers(s.lvs[..k], s.calls) + [r] else Makers(s.lvs[..k], s.calls))
      && Allocated(s.lvs[..k + 1]) == Allocated(s.lvs[..k]) + (if s.lvs[k].live then e.round(Asked(r)) else 0)
  {
    MakerOf(e, s, k);
    hide Inv, Asked;
    assert s.lvs[..k + 1][..k] == s.lvs[..k] && s.lvs[..k + 1][k] == s.lvs[k];
  }

  /** Each of them stands for a live volume of its name. */
  lemma {:induction false} MakersNamed(e: Env, s: State, k: nat, i: nat) returns (u: nat)
    requires Inv(e, s) && k <= |s.lvs| && i < |Makers(s.lvs[..k], s.calls)|
    ensures u < k && s.lvs[u].live && s.lvs[u].name == SafeName(e, Makers(s.lvs[..k], s.calls)[i].name)
    ensures Admissible(e, Makers(s.lvs[..k], s.calls)[i]) && e.accepts(Asked(Makers(s.lvs[..k], s.calls)[i]))
  {
    assert s.lvs[..k][..k - 1] == s.lvs[..k - 1] && s.lvs[..k][k - 1] == s.lvs[k - 1];
    if i < |Makers(s.lvs[..k - 1], s.calls)| {
      u := MakersNamed(e, s, k - 1, i);
    } else {
      u := k - 1;
      MakerOf(e, s, u);
    }
  }

  /** The older volumes' makers ask for other names than a live volume's. */
  lemma MakersDiffer(e: Env, s: State, k: nat, r: CreateRequest)
    requires Inv(e, s) && Live(s.lvs, k) && s.lvs[k].name == SafeName(e, r.name)
    ensures forall q :: q in Makers(s.lvs[..k], s.calls) ==> e.digest(q.name) != e.digest(r.name)
  {
    forall q | q in Makers(s.lvs[..k], s.calls) ensures e.digest(q.name) != e.digest(r.name) {
      var i :| 0 <= i < |Makers(s.lvs[..k], s.calls)| && Makers(s.lvs[..k], s.calls)[i] == q;
      var u := MakersNamed(e, s, k, i);
      assert Live(s.lvs, u);
    }
  }

  lemma EligibleSnoc(e: Env, reqs: seq<CreateRequest>, r: CreateRequest)
    requires Eligible(e, reqs) && Admissible(e, r) && e.accepts(Asked(r))
    requires forall q :: q in reqs ==> e.digest(q.name) != e.digest(r.name)
    ensures Eligible(e, reqs + [r])
  {
    hide Admissible, Asked;
    forall i | 0 <= i < |reqs| ensures e.digest(reqs[i].name) != e.digest(r.name) {
      assert reqs[i] in reqs;
    }
  }

  /** If the machine made every volume, they need exactly what is allocated, under names of their own. */
  lemma {:induction false} MakersEligible(e: Env, s: State, k: nat)
    requires Inv(e, s) && k <= |s.lvs| && forall u :: 0 <= u < |s.lvs| ==> s.lvs[u].maker.Some?
    ensures Eligible(e, Makers(s.lvs[..k], s.calls))
    ensures Rounded(e, Makers(s.lvs[..k], s.calls)) == Allocated(s.lvs[..k])
  {
    hide Inv, SafeName, Rounded, Eligible, Makers, Allocated;
    if k > 0 {
      MakersEligible(e, s, k - 1);
      MakersSnoc(e, s, k - 1);
      if s.lvs[k - 1].live {
        var front, r := Makers(s.lvs[..k - 1], s.calls), s.calls[s.lvs[k - 1].maker.value].req;
        RoundedSnoc(e, front, r);
        MakerOf(e, s, k - 1);
        MakersDiffer(e, s, k - 1, r);
        EligibleSnoc(e, front, r);
      }
    } else {
      assert s.lvs[..0] == [];
      NoMakers(e, s.calls);
    }
  }

  lemma NoMakers(e: Env, calls: seq<Call>)
    ensures Makers([], calls) == [] && Eligible(e, []) && Rounded(e, []) == Allocated([]) == 0
  {
  }

  /** In a group that was empty at first, the machine made every volume. */
  lemma {:induction false} AllMadeHere(e: Env, events: seq<Event>, u: nat)
    requires ValidEnv(e) && u < |Run(e, EMPTY, events).lvs|
    ensures Run(e, EMPTY, events).lvs[u].maker.Some?
  {
    if events != [] {
      var front, event := events[..|events| - 1], events[|events| - 1];
      var before := Run(e, EMPTY, front);
      ReachableInv(e, EMPTY, front);
      ApplyGrows(e, before, event);
      if u < |before.lvs| {
        AllMadeHere(e, front, u);
        assert VolumeGrows(before.lvs[u], Run(e, EMPTY, events).lvs[u]);
      } else {
        OnlyAddAdds(e, before, event);
      }
    }
  }

  /** Any overrun is due to such requests: the makers of the volumes then live. */
  lemma OverrunHasMakers(e: Env, events: seq<Event>) returns (reqs: seq<CreateRequest>)
    requires ValidEnv(e) && Overrun(e, Run(e, EMPTY, events))
    ensures TooMuch(e, reqs) && reqs == Makers(Run(e, EMPTY, events).lvs, Run(e, EMPTY, events).calls)
  {
    var s := Run(e, EMPTY, events);
    ReachableInv(e, EMPTY, events);
    forall u | 0 <= u < |s.lvs| ensures s.lvs[u].maker.Some? {
      AllMadeHere(e, events, u);
    }
    hide Run;
    MakersEligible(e, s, |s.lvs|);
    assert s.lvs[..|s.lvs|] == s.lvs;
    reqs := Makers(s.lvs, s.calls);
  }

  /**
   * When the reserve can be overrun from an empty group, exactly, on every host and whatever the figure
   * means: when there are requests, each within the range check and of a legal size, under names of
   * different digests, whose rounded sizes together exceed the usable bytes and fit in the group.
   */
  lemma ReserveOverrunExactly(e: Env)
    requires ValidEnv(e)
    ensures (exists events :: Overrun(e, Run(e, EMPTY, events))) <==> exists reqs :: TooMuch(e, reqs)
  {
    if events :| Overrun(e, Run(e, EMPTY, events)) {
      var reqs := OverrunHasMakers(e, events);
    }
    if reqs :| TooMuch(e, reqs) {
      var events := OverlappingCreatesEatReserve(e, reqs);
    }
  }

  /** The requests arrive one by one, each when the earlier ones have been served. */
  function Serially(reqs: seq<CreateRequest>): seq<Event> {
    if reqs == [] then []
    else
      var k := |reqs| - 1;
      Serially(reqs[..k]) + ([NewCreate(reqs[k])] + Polls(k, FAULT_FREE))
  }

  lemma {:induction false} SeriallyNoDeletes(reqs: seq<CreateRequest>)
    ensures NoDeletes(Serially(reqs))
  {
    if reqs != [] {
      SeriallyNoDeletes(reqs[..|reqs| - 1]);
      PollsNoDeletes(|reqs| - 1, FAULT_FREE);
    }
  }

  lemma {:induction false} PollsNoDeletes(i: nat, outcomes: seq<Outcome>)
    ensures NoDeletes(Polls(i, outcomes))
  {
    if outcomes != [] {
      PollsNoDeletes(i, outcomes[1..]);
    }
  }

  /** Request `i` is a create answered OK. */
  predicate Granted(s: State, i: nat) {
    ReplyOf(s, i).Some? && ReplyOf(s, i).value.Ok?
  }

  /** The next request, served undisturbed, is answered OK and adds its volume. */
  lemma ServesNext(e: Env, s: State, reqs: seq<CreateRequest>, k: nat)
    requires ValidEnv(e) && Eligible(e, reqs) && Rounded(e, reqs) <= e.size && k < |reqs|
    requires e.figure == Remaining ==> FitInTurn(e, reqs)
    requires Holds(e, s.lvs, reqs[..k]) && |s.calls| == k
    ensures var t := Run(e, s, Undisturbed(s, reqs[k]));
      && (Undeleted(t) ==> Holds(e, t.lvs, reqs[..k + 1])) && |t.calls| == k + 1 && t.calls[..k] == s.calls
      && Granted(t, k)
  {
    hide HexName, Run, Rounded;
    var r := reqs[k];
    assert r in reqs;
    NameFree(e, s.lvs, reqs, k);
    assert reqs[..k + 1] == reqs[..k] + [r];
    RoundedSnoc(e, reqs[..k], r);
    RoundedPrefix(e, reqs, k + 1);
    UndisturbedCreate(e, s, r);
    var t := Run(e, s, Undisturbed(s, r));
    forall u | 0 <= u < k ensures t.lvs[u].name == SafeName(e, reqs[..k + 1][u].name) {
      assert VolumeGrows(s.lvs[u], t.lvs[u]);
    }
  }

  /**
   * Requests served one after another without a fault are all answered OK and each add their volume, if they
   * fit in the group, and, when the figure is the remaining room, fit in turn in the usable bytes.
   */
  lemma {:induction false} SerialCreates(e: Env, reqs: seq<CreateRequest>)
    requires ValidEnv(e) && Eligible(e, reqs) && Rounded(e, reqs) <= e.size
    requires e.figure == Remaining ==> FitInTurn(e, reqs)
    ensures var s := Run(e, EMPTY, Serially(reqs));
      && Holds(e, s.lvs, reqs) && |s.calls| == |reqs|
      && forall k :: 0 <= k < |reqs| ==> Granted(s, k)
  {
    hide Run, Holds, Serially, Granted, Rounded;
    if reqs != [] {
      var k := |reqs| - 1;
      EligiblePrefix(e, reqs, k);
      RoundedPrefix(e, reqs, k);
      FitPrefix(e, reqs, k);
      SerialCreates(e, reqs[..k]);
      hide Eligible, FitInTurn;
      SerialNext(e, reqs);
    } else {
      NothingServed(e);
    }
  }

  lemma NothingServed(e: Env)
    ensures Run(e, EMPTY, Serially([])) == EMPTY && Holds(e, [], [])
  {
  }

  /** The last of them. */
  lemma SerialNext(e: Env, reqs: seq<CreateRequest>)
    requires ValidEnv(e) && Eligible(e, reqs) && Rounded(e, reqs) <= e.size && reqs != []
    requires e.figure == Remaining ==> FitInTurn(e, reqs)
    requires var s, k := Run(e, EMPTY, Serially(reqs[..|reqs| - 1])), |reqs| - 1;
      && Holds(e, s.lvs, reqs[..k]) && |s.calls| == k
      && forall i :: 0 <= i < k ==> Granted(s, i)
    ensures var t := Run(e, EMPTY, Serially(reqs));
      && Holds(e, t.lvs, reqs) && |t.calls| == |reqs|
      && forall i :: 0 <= i < |reqs| ==> Granted(t, i)
  {
    hide Run, Undeleted, Holds, Eligible, FitInTurn, Rounded, Serially, NoDeletes, ValidEnv;
    var k := |reqs| - 1;
    var s, t := Run(e, EMPTY, Serially(reqs[..k])), Run(e, EMPTY, Serially(reqs));
    SeriallySnoc(e, reqs);
    SeriallyNoDeletes(reqs);
    assert Initial(e, EMPTY);
    NothingRemoved(e, EMPTY, Serially(reqs));
    ServesNext(e, s, reqs, k);
    assert reqs[..k + 1] == reqs;
    forall i | 0 <= i < k ensures Granted(t, i) {
      assert t.calls[i] == t.calls[..k][i] && Granted(s, i);
    }
  }

  lemma SeriallySnoc(e: Env, reqs: seq<CreateRequest>)
    requires reqs != []
    ensures var s := Run(e, EMPTY, Serially(reqs[..|reqs| - 1]));
      |s.calls| == |reqs| - 1 ==> Run(e, EMPTY, Serially(reqs)) == Run(e, s, Undisturbed(s, reqs[|reqs| - 1]))
  {
    var s := Run(e, EMPTY, Serially(reqs[..|reqs| - 1]));
    RunConcat(e, EMPTY, Serially(reqs[..|reqs| - 1]), Undisturbed(s, reqs[|reqs| - 1]));
    hide Run;
  }

  lemma FitPrefix(e: Env, reqs: seq<CreateRequest>, k: nat)
    requires k <= |reqs|
    ensures FitInTurn(e, reqs) ==> FitInTurn(e, reqs[..k])
  {
    forall j | 0 <= j < k ensures reqs[..k][..j] == reqs[..j] {
    }
  }

  lemma {:induction false} NoneInFlight(calls: seq<Call>)
    requires forall i :: 0 <= i < |calls| ==> !InFlight(calls[i])
    ensures CountInFlight(calls) == 0
  {
    if calls != [] {
      NoneInFlight(calls[..|calls| - 1]);
    }
  }

  /** While one request is polled and no other is in flight, at most one is. */
  lemma {:induction false} PollsInFlight(e: Env, s: State, i: nat, outcomes: seq<Outcome>, k: nat)
    requires i < |s.calls| && s.calls[i].CreateCall? && k <= |outcomes| == |Polls(i, outcomes)|
    requires CountInFlight(s.calls) == if InFlight(s.calls[i]) then 1 else 0
    ensures CountInFlight(Run(e, s, Polls(i, outcomes)[..k]).calls) <= 1
    decreases k
  {
    if k > 0 {
      var next := Apply(e, s, Poll(i, outcomes[0]));
      var rest := Polls(i, outcomes[1..]);
      SumsUpdate(s.calls, i, next.calls[i]);
      assert Polls(i, outcomes)[..k] == [Poll(i, outcomes[0])] + rest[..k - 1];
      RunFront(e, s, Poll(i, outcomes[0]), rest[..k - 1]);
      hide StepCreate, CountInFlight;
      PollsInFlight(e, next, i, outcomes[1..], k - 1);
    } else {
      assert Polls(i, outcomes)[..0] == [];
    }
  }

  lemma {:induction false} PollsLength(i: nat, outcomes: seq<Outcome>)
    ensures |Polls(i, outcomes)| == |outcomes|
  {
    if outcomes != [] {
      PollsLength(i, outcomes[1..]);
    }
  }

  /** A request served undisturbed in a state with nothing in flight. */
  lemma UndisturbedInFlight(e: Env, s: State, req: CreateRequest, k: nat)
    requires CountInFlight(s.calls) == 0 && k <= |Undisturbed(s, req)|
    ensures CountInFlight(Run(e, s, Undisturbed(s, req)[..k]).calls) <= 1
  {
    var i, s1 := |s.calls|, Apply(e, s, NewCreate(req));
    PollsLength(i, FAULT_FREE);
    SumsAppend(s.calls, NewCreateCall(req));
    if k == 0 {
      assert Undisturbed(s, req)[..0] == [];
    } else {
      assert Undisturbed(s, req)[..k] == [NewCreate(req)] + Polls(i, FAULT_FREE)[..k - 1];
      RunFront(e, s, NewCreate(req), Polls(i, FAULT_FREE)[..k - 1]);
      PollsInFlight(e, s1, i, FAULT_FREE, k - 1);
    }
  }

  /** So requests served one after another are a serial run. */
  lemma {:induction false} SeriallyIsSerial(e: Env, reqs: seq<CreateRequest>)
    requires ValidEnv(e) && Eligible(e, reqs) && Rounded(e, reqs) <= e.size
    requires e.figure == Remaining ==> FitInTurn(e, reqs)
    ensures AtMostInFlight(e, EMPTY, Serially(reqs), 1)
  {
    if reqs != [] {
      var k := |reqs| - 1;
      var front := reqs[..k];
      EligiblePrefix(e, reqs, k);
      RoundedPrefix(e, reqs, k);
      FitPrefix(e, reqs, k);
      SeriallyIsSerial(e, front);
      SerialCreates(e, front);
      SerialLonger(e, reqs);
    } else {
      assert CountInFlight(EMPTY.calls) == 0;
    }
  }

  lemma GrantedSettled(s: State)
    requires forall i :: 0 <= i < |s.calls| ==> Granted(s, i)
    ensures CountInFlight(s.calls) == 0
  {
    forall i | 0 <= i < |s.calls| ensures !InFlight(s.calls[i]) {
      assert Granted(s, i);
    }
    NoneInFlight(s.calls);
  }

  lemma SerialLonger(e: Env, reqs: seq<CreateRequest>)
    requires reqs != [] && AtMostInFlight(e, EMPTY, Serially(reqs[..|reqs| - 1]), 1)
    requires var s := Run(e, EMPTY, Serially(reqs[..|reqs| - 1]));
      |s.calls| == |reqs| - 1 && forall i :: 0 <= i < |s.calls| ==> Granted(s, i)
    ensures AtMostInFlight(e, EMPTY, Serially(reqs), 1)
  {
    var k := |reqs| - 1;
    var a := Serially(reqs[..k]);
    var s := Run(e, EMPTY, a);
    var b := Undisturbed(s, reqs[k]);
    assert Serially(reqs) == a + b;
    GrantedSettled(s);
    forall j | 0 <= j <= |b| ensures CountInFlight(Run(e, s, b[..j]).calls) <= 1 {
      UndisturbedInFlight(e, s, reqs[k], j);
    }
    AtMostConcat(e, EMPTY, a, b, 1);
  }

  lemma AtMostConcat(e: Env, s: State, a: seq<Event>, b: seq<Event>, n: nat)
    requires AtMostInFlight(e, s, a, n) && AtMostInFlight(e, Run(e, s, a), b, n)
    ensures AtMostInFlight(e, s, a + b, n)
  {
    hide CountInFlight, Run;
    forall j | 0 <= j <= |a + b| ensures CountInFlight(Run(e, s, (a + b)[..j]).calls) <= n {
      if j <= |a| {
        assert (a + b)[..j] == a[..j];
      } else {
        assert (a + b)[..j] == a + b[..j - |a|];
        RunConcat(e, s, a, b[..j - |a|]);
      }
    }
  }

  /**
   * If the figure is the group's total size, even serial creates overrun: on every host, any requests that
   * need too much together are answered OK one after another.
   */
  lemma TotalFigureEatsReserve(e: Env, reqs: seq<CreateRequest>)
    requires ValidEnv(e) && TooMuch(e, reqs) && e.figure == Total
    ensures var s := Run(e, EMPTY, Serially(reqs));
      Overrun(e, s) && |s.calls| == |reqs| && forall k :: 0 <= k < |reqs| ==> Granted(s, k)
  {
    SerialCreates(e, reqs);
  }

  /**
   * Rounding alone overruns: on every host, whatever the figure means, a single undisturbed create of an
   * admissible, legal size that LVM rounds beyond the usable bytes is answered OK and uses up the reserve.
   */
  lemma RoundingEatsReserve(e: Env, req: CreateRequest)
    requires ValidEnv(e) && Admissible(e, req) && e.accepts(Asked(req))
    requires Usable(e) < e.round(Asked(req)) <= e.size
    ensures var s := Run(e, EMPTY, Undisturbed(EMPTY, req)); Granted(s, 0) && Overrun(e, s)
  {
    UndisturbedCreate(e, EMPTY, req);
  }

  /** What was allocated before a volume does not grow. */
  lemma {:induction false} AllocatedShrinks(lvs: Store, later: Store, k: nat)
    requires StoreGrows(lvs, later) && k <= |lvs|
    ensures Allocated(later[..k]) <= Allocated(lvs[..k])
  {
    if k > 0 {
      AllocatedShrinks(lvs, later, k - 1);
      assert lvs[..k][..k - 1] == lvs[..k - 1] && lvs[..k][k - 1] == lvs[k - 1];
      assert later[..k][..k - 1] == later[..k - 1] && later[..k][k - 1] == later[k - 1];
      assert VolumeGrows(lvs[k - 1], later[k - 1]);
    }
  }

  /** Every admitted request still fits beside what is allocated, and every volume made fitted beside the older ones. */
  ghost predicate TurnsKept(e: Env, s: State) {
    && (forall i :: 0 <= i < |s.calls| && Admitted(s.calls[i]) ==>
          Allocated(s.lvs) + Asked(s.calls[i].req) <= Usable(e))
    && (forall u :: Live(s.lvs, u) && s.lvs[u].maker.Some? ==>
          Allocated(s.lvs[..u]) + RequestedBy(s.calls, s.lvs[u]) <= Usable(e))
  }

  lemma TwoInFlight(calls: seq<Call>, i: nat, j: nat)
    requires i < |calls| && j < |calls| && i != j && InFlight(calls[i]) && InFlight(calls[j])
    ensures CountInFlight(calls) >= 2
  {
    var without := calls[i := CreateCall(calls[i].req, CreateDropped)];
    SumsUpdate(calls, i, without[i]);
    SumsUpdate(without, j, CreateCall(calls[j].req, CreateDropped));
  }

  /** With one create in flight, nothing is admitted once that one adds its volume. */
  lemma AdderIsAlone(e: Env, s: State, event: Event, i: nat)
    requires WellFormed(e, s.lvs) && CountInFlight(s.calls) <= 1
    requires i < |Apply(e, s, event).calls| && Admitted(Apply(e, s, event).calls[i])
    ensures |Apply(e, s, event).lvs| <= |s.lvs|
  {
    if |s.lvs| < |Apply(e, s, event).lvs| {
      OnlyAddAdds(e, s, event);
      if i != event.call {
        TwoInFlight(s.calls, i, event.call);
      }
    }
  }

  /** The range check admits a request against what is allocated. */
  lemma AdmittedAgainst(e: Env, s: State, event: Event, i: nat)
    requires e.figure == Remaining && i < |Apply(e, s, event).calls| && Admitted(Apply(e, s, event).calls[i])
    requires |Apply(e, s, event).lvs| == |s.lvs|
    ensures i < |s.calls| && s.calls[i].CreateCall? && Apply(e, s, event).calls[i].req == s.calls[i].req
    ensures Admitted(s.calls[i]) || Allocated(s.lvs) + Asked(s.calls[i].req) <= Usable(e)
  {
    hide AddLv, FormatLv, RemoveLv, FindName, Allocated;
  }

  /** What is admitted still fits beside what is allocated. */
  lemma AdmittedKeepTurns(e: Env, s: State, event: Event, i: nat)
    requires ValidEnv(e) && e.figure == Remaining && Inv(e, s) && TurnsKept(e, s) && CountInFlight(s.calls) <= 1
    requires i < |Apply(e, s, event).calls| && Admitted(Apply(e, s, event).calls[i])
    ensures Allocated(Apply(e, s, event).lvs) + Asked(Apply(e, s, event).calls[i].req) <= Usable(e)
  {
    var later := Apply(e, s, event);
    ApplyGrows(e, s, event);
    hide Apply, Allocated, Usable;
    AdderIsAlone(e, s, event, i);
    AdmittedAgainst(e, s, event, i);
    AllocatedShrinks(s.lvs, later.lvs, |s.lvs|);
    assert s.lvs[..|s.lvs|] == s.lvs && later.lvs[..|s.lvs|] == later.lvs;
  }

  lemma VolumesKeepTurns(e: Env, s: State, event: Event, u: nat)
    requires Inv(e, s) && TurnsKept(e, s)
    requires Live(Apply(e, s, event).lvs, u) && Apply(e, s, event).lvs[u].maker.Some?
    ensures var later := Apply(e, s, event);
      Allocated(later.lvs[..u]) + RequestedBy(later.calls, later.lvs[u]) <= Usable(e)
  {
    var later := Apply(e, s, event);
    ApplyGrows(e, s, event);
    if u < |s.lvs| {
      AllocatedShrinks(s.lvs, later.lvs, u);
      assert VolumeGrows(s.lvs[u], later.lvs[u]) && Live(s.lvs, u);
      MakerOf(e, s, u);
      assert CallGrows(s.calls[s.lvs[u].maker.value], later.calls[s.lvs[u].maker.value]);
    } else {
      OnlyAddAdds(e, s, event);
      assert CallGrows(s.calls[event.call], later.calls[event.call]);
      assert Admitted(s.calls[event.call]) && later.lvs[..u] == s.lvs;
    }
  }

  lemma {:induction false} SerialTurns(e: Env, events: seq<Event>)
    requires ValidEnv(e) && e.figure == Remaining && AtMostInFlight(e, EMPTY, events, 1)
    ensures TurnsKept(e, Run(e, EMPTY, events))
  {
    if events != [] {
      var front, event := events[..|events| - 1], events[|events| - 1];
      forall k | 0 <= k <= |front| ensures CountInFlight(Run(e, EMPTY, front[..k]).calls) <= 1 {
        assert front[..k] == events[..k];
      }
      SerialTurns(e, front);
      ReachableInv(e, EMPTY, front);
      assert events[..|front|] == front;
      var s, later := Run(e, EMPTY, front), Run(e, EMPTY, events);
      forall i | 0 <= i < |later.calls| && Admitted(later.calls[i])
        ensures Allocated(later.lvs) + Asked(later.calls[i].req) <= Usable(e)
      {
        AdmittedKeepTurns(e, s, event, i);
      }
      forall u | Live(later.lvs, u) && later.lvs[u].maker.Some?
        ensures Allocated(later.lvs[..u]) + RequestedBy(later.calls, later.lvs[u]) <= Usable(e)
      {
        VolumesKeepTurns(e, s, event, u);
      }
    }
  }

  /** So the makers of the live volumes, in the order of those volumes, fit in turn. */
  lemma {:induction false} MakersFit(e: Env, s: State, k: nat)
    requires Inv(e, s) && TurnsKept(e, s) && k <= |s.lvs| && forall u :: 0 <= u < |s.lvs| ==> s.lvs[u].maker.Some?
    ensures FitInTurn(e, Makers(s.lvs[..k], s.calls))
  {
    if k > 0 {
      MakersFit(e, s, k - 1);
      MakersEligible(e, s, k - 1);
      MakersSnoc(e, s, k - 1);
      MadeInTurn(e, s, k - 1);
      hide Inv, TurnsKept, Makers, Allocated, FitInTurn, Rounded;
      if s.lvs[k - 1].live {
        FitSnoc(e, Makers(s.lvs[..k - 1], s.calls), s.calls[s.lvs[k - 1].maker.value].req);
      }
    } else {
      assert s.lvs[..0] == [];
      NoMakers(e, s.calls);
    }
  }

  lemma MadeInTurn(e: Env, s: State, u: nat)
    requires Inv(e, s) && TurnsKept(e, s) && u < |s.lvs| && s.lvs[u].maker.Some?
    ensures s.lvs[u].maker.value < |s.calls| && s.calls[s.lvs[u].maker.value].CreateCall?
    ensures s.lvs[u].live ==> Allocated(s.lvs[..u]) + Asked(s.calls[s.lvs[u].maker.value].req) <= Usable(e)
  {
    MakerOf(e, s, u);
    assert s.lvs[u].live ==> Live(s.lvs, u);
  }

  lemma FitSnoc(e: Env, reqs: seq<CreateRequest>, r: CreateRequest)
    requires FitInTurn(e, reqs) && Rounded(e, reqs) + Asked(r) <= Usable(e)
    ensures FitInTurn(e, reqs + [r])
  {
    forall k | 0 <= k <= |reqs| ensures (reqs + [r])[..k] == reqs[..k] && reqs[..|reqs|] == reqs {
    }
  }

  /**
   * When serial creates overrun from an empty group, exactly, on every host: when there are requests that need
   * too much together, and, if the figure is the remaining room, fit in turn, so that rounding makes the excess.
   */
  lemma SerialOverrunExactly(e: Env)
    requires ValidEnv(e)
    ensures (exists events :: AtMostInFlight(e, EMPTY, events, 1) && Overrun(e, Run(e, EMPTY, events)))
      <==> exists reqs :: TooMuch(e, reqs) && (e.figure == Remaining ==> FitInTurn(e, reqs))
  {
    if events :| AtMostInFlight(e, EMPTY, events, 1) && Overrun(e, Run(e, EMPTY, events)) {
      var reqs := OverrunHasMakers(e, events);
      if e.figure == Remaining {
        SerialOverrunFits(e, events, reqs);
      }
    }
    if reqs :| TooMuch(e, reqs) && (e.figure == Remaining ==> FitInTurn(e, reqs)) {
      SerialCreates(e, reqs);
      SeriallyIsSerial(e, reqs);
      assert Overrun(e, Run(e, EMPTY, Serially(reqs)));
    }
  }

  lemma SerialOverrunFits(e: Env, events: seq<Event>, reqs: seq<CreateRequest>)
    requires ValidEnv(e) && e.figure == Remaining && AtMostInFlight(e, EMPTY, events, 1)
    requires reqs == Makers(Run(e, EMPTY, events).lvs, Run(e, EMPTY, events).calls)
    ensures FitInTurn(e, reqs)
  {
    var s := Run(e, EMPTY, events);
    ReachableInv(e, EMPTY, events);
    SerialTurns(e, events);
    forall u | 0 <= u < |s.lvs| ensures s.lvs[u].maker.Some? {
      AllMadeHere(e, events, u);
    }
    MakersFit(e, s, |s.lvs|);
    assert s.lvs[..|s.lvs|] == s.lvs;
  }

  /** Volumes of at least MIN bytes and at most `most`: none, one that fits in `most`, or at least two MIN. */
  lemma {:induction false} NoneOneOrMore(lvs: Store, most: nat)
    requires forall u :: 0 <= u < |lvs| && lvs[u].live ==> MIN_VOLUME_SIZE_BYTES <= lvs[u].capacity <= most
    ensures Allocated(lvs) == 0 || MIN_VOLUME_SIZE_BYTES <= Allocated(lvs) <= most
            || 2 * MIN_VOLUME_SIZE_BYTES <= Allocated(lvs)
    ensures Allocated(lvs) > 0 ==> MIN_VOLUME_SIZE_BYTES <= most
  {
    if lvs != [] {
      NoneOneOrMore(lvs[..|lvs| - 1], most);
    }
  }

  /** There is a reserve, a volume of MIN bytes passes the range check, and two of them fit in the group. */
  predicate ReserveAtRisk(e: Env) {
    e.spare > 0 && MIN_VOLUME_SIZE_BYTES <= Usable(e) && 2 * MIN_VOLUME_SIZE_BYTES <= e.size
  }

  /** Without that risk no state with unrounded volumes has overrun, whatever the figure and the interleaving. */
  lemma SafeReserveKept(e: Env, events: seq<Event>)
    requires ValidEnv(e) && !ReserveAtRisk(e) && Unrounded(Run(e, EMPTY, events))
    ensures !Overrun(e, Run(e, EMPTY, events))
  {
    var s := Run(e, EMPTY, events);
    ReachableInv(e, EMPTY, events);
    forall u | 0 <= u < |s.lvs| && s.lvs[u].live ensures MIN_VOLUME_SIZE_BYTES <= s.lvs[u].capacity <= Usable(e) {
      AllMadeHere(e, events, u);
      EachVolumeInRange(e, EMPTY, events, u);
      assert Live(s.lvs, u);
    }
    hide Run;
    NoneOneOrMore(s.lvs, Usable(e));
  }
}
