/** Runs that show what provisioning does not promise, and that the hypotheses of its theorems are needed. */
module ProvisioningWitnesses {
  import opened Numerals
  import opened VolumeStore
  import opened Provisioning
  import opened ProvisioningSafety
  import opened Convergence

  /** What a delete served alone comes to, by the outcomes of its two calls. */
  lemma DeleteServed(e: Env, lvs: Store, u: nat, lookup: Outcome, removal: Outcome)
    requires WellFormed(e, lvs)
    ensures var (later, stage) := ServeDelete(lvs, Managed(u), Find, [lookup, removal]);
      && (stage.Deleted? && stage.result.Ok? <==>
            lookup.Refused? || lookup.Lost? || (lookup.Answered? && (!Live(lvs, u) || removal.Answered?)))
      && (!Live(later, u) <==> !Live(lvs, u) || (lookup.Answered? && (removal.Answered? || removal.Lost?)))
  {
    var (found, seen) := StepDelete(lvs, Managed(u), Find, lookup);
    var (later, stage) := StepDelete(found, Managed(u), seen, removal);
    assert [lookup, removal][1..] == [removal] && [removal][1..] == [];
    assert ServeDelete(found, Managed(u), seen, [removal]) == (later, stage);
    if Live(lvs, u) {
      RemoveLvEffect(e, lvs, lvs[u].name);
      assert RemoveLv(lvs, lvs[u].name).Ok? && !Live(RemoveLv(lvs, lvs[u].name).value, u);
    }
    hide RemoveLv, WellFormed;
  }

  /** Request `i` is a delete answered OK. */
  predicate DeleteAnsweredOk(s: State, i: nat) {
    i < |s.calls| && s.calls[i].DeleteCall? && s.calls[i].delete.Deleted? && s.calls[i].delete.result.Ok?
  }

  /**
   * Exactly when a delete of a managed UUID, served alone, is answered OK, and exactly when the volume is
   * gone afterwards, for all outcomes of its two calls. The two come apart in both directions: a lookup that
   * was refused or whose answer was lost is answered OK and removes nothing, while a removal whose answer
   * was lost is answered with an error.
   */
  lemma DeleteOkExactly(e: Env, s: State, u: nat, lookup: Outcome, removal: Outcome)
    requires WellFormed(e, s.lvs)
    ensures var t := Run(e, s, [NewDelete(Managed(u))] + Polls(|s.calls|, [lookup, removal]));
      && (DeleteAnsweredOk(t, |s.calls|) <==>
            lookup.Refused? || lookup.Lost? || (lookup.Answered? && (!Live(s.lvs, u) || removal.Answered?)))
      && (!Live(t.lvs, u) <==> !Live(s.lvs, u) || (lookup.Answered? && (removal.Answered? || removal.Lost?)))
  {
    hide Run, ServeDelete, WellFormed;
    RunFront(e, s, NewDelete(Managed(u)), Polls(|s.calls|, [lookup, removal]));
    ServeDeleteIsRun(e, Apply(e, s, NewDelete(Managed(u))), |s.calls|, [lookup, removal]);
    DeleteServed(e, s.lvs, u, lookup, removal);
  }

  /**
   * So an OK reply to a delete whose removal, if it came to one, was answered means that the volume is gone
   * exactly when the lookup was answered or there was no such volume.
   */
  lemma LookupErrorReadsAsAbsence(e: Env, s: State, u: nat, lookup: Outcome)
    requires WellFormed(e, s.lvs) && lookup != Cut
    ensures var t := Run(e, s, [NewDelete(Managed(u))] + Polls(|s.calls|, [lookup, Answered]));
      DeleteAnsweredOk(t, |s.calls|) && (!Live(t.lvs, u) <==> lookup == Answered || !Live(s.lvs, u))
  {
    DeleteOkExactly(e, s, u, lookup, Answered);
  }

  /**
   * A delete for a volume of another group removes the managed volume that happens to share its name, which
   * nobody asked to remove: the lookup by UUID is not limited to the managed group, the removal is.
   */
  lemma ForeignDeleteTakesNamesake(e: Env, s: State, u: nat)
    requires WellFormed(e, s.lvs) && Live(s.lvs, u)
    ensures var t := Run(e, s, UndisturbedDelete(s, Elsewhere(s.lvs[u].name)));
      !Live(t.lvs, u) && DeleteAnsweredOk(t, |s.calls|)
  {
    DeleteAlone(e, s, Elsewhere(s.lvs[u].name));
  }

  /** A pending removal by name whose own volume is gone takes whichever live volume bears the name. */
  lemma PendingRemovalTakes(e: Env, s: State, i: nat, u: nat, issued: nat, w: nat)
    requires WellFormed(e, s.lvs) && i < |s.calls| && Live(s.lvs, w)
    requires s.calls[i] == DeleteCall(Managed(u), issued, Remove(s.lvs[w].name))
    ensures var after := Apply(e, s, Poll(i, Answered));
      !Live(after.lvs, w) && DeletedOk(after, i, u, SawFound)
  {
    FindNameExact(e, s.lvs, s.lvs[w].name, w);
    RemoveLvEffect(e, s.lvs, s.lvs[w].name);
  }

  /** The successor of `u` falls to any delete of `u` that has been looked up and waits for its removal. */
  lemma WaitingDeleteTakesSuccessor(e: Env, s: State, i: nat, u: nat, issued: nat, req: CreateRequest)
    returns (before: State)
    requires ValidEnv(e) && WellFormed(e, s.lvs) && i < |s.calls|
    requires Live(s.lvs, u) && s.lvs[u].name == SafeName(e, req.name)
    requires s.calls[i] == DeleteCall(Managed(u), issued, Remove(s.lvs[u].name))
    requires CanServe(e, s.lvs[u := s.lvs[u].(live := false)], req)
    ensures var s1 := Run(e, s, UndisturbedDelete(s, Managed(u)));
      && before == Run(e, s1, Undisturbed(s1, req))
      && Live(before.lvs, |s.lvs|) && !Live(before.lvs, u)
      && var after := Apply(e, before, Poll(i, Answered));
         !Live(after.lvs, |s.lvs|) && DeletedOk(after, i, u, SawFound)
  {
    hide Run, AddLv, RemoveLv, FormatLv, FreeBytes, StepCreate, StepDelete, HexName;
    DeleteAlone(e, s, Managed(u));
    var s1 := Run(e, s, UndisturbedDelete(s, Managed(u)));
    assert s1.lvs == s.lvs[u := s.lvs[u].(live := false)] by {
      forall w | 0 <= w < |s.lvs| ensures s1.lvs[w].live == (s.lvs[w].live && w != u) {
        assert Live(s1.lvs, w) <==> Live(s.lvs, w) && !Named(s.lvs, Managed(u), w);
      }
    }
    UndisturbedCreate(e, s1, req);
    before := Run(e, s1, Undisturbed(s1, req));
    FindNameSound(s1.lvs, SafeName(e, req.name));
    forall w ensures !(Live(s1.lvs, w) && s1.lvs[w].name == SafeName(e, req.name)) {
      if w != u && Live(s1.lvs, w) {
        assert Live(s.lvs, w);
      }
    }
    assert Target(e, s1.lvs, req) == |s.lvs|;
    assert VolumeGrows(s1.lvs[u], before.lvs[u]);
    assert s.calls[i] == s1.calls[..|s.calls|][i];
    assert s1.calls[i] == before.calls[..|s1.calls|][i];
    PendingRemovalTakes(e, before, i, u, issued, |s.lvs|);
  }

  /** A delete of a live volume that has been looked up. */
  function LookedUpDelete(s: State, u: nat): seq<Event> {
    [NewDelete(Managed(u))] + Polls(|s.calls|, [Answered])
  }

  /**
   * A stale delete takes the successor. In any state with a live volume: a delete looks it up, a second
   * delete removes it, a create makes a new volume of the same name, and the first delete then removes that
   * one and is answered OK, although nobody asked for its removal.
   */
  lemma StaleDeleteTakesSuccessor(e: Env, s: State, u: nat, req: CreateRequest)
    requires ValidEnv(e) && WellFormed(e, s.lvs)
    requires Live(s.lvs, u) && s.lvs[u].name == SafeName(e, req.name)
    requires CanServe(e, s.lvs[u := s.lvs[u].(live := false)], req)
    ensures var s1 := Run(e, s, LookedUpDelete(s, u));
      var s2 := Run(e, s1, UndisturbedDelete(s1, Managed(u)));
      var s3 := Run(e, s2, Undisturbed(s2, req));
      var s4 := Apply(e, s3, Poll(|s.calls|, Answered));
      && Live(s3.lvs, |s.lvs|) && !Live(s3.lvs, u)
      && !Live(s4.lvs, |s.lvs|) && DeletedOk(s4, |s.calls|, u, SawFound)
  {
    RunFront(e, s, NewDelete(Managed(u)), Polls(|s.calls|, [Answered]));
    ServeDeleteIsRun(e, Apply(e, s, NewDelete(Managed(u))), |s.calls|, [Answered]);
    assert [Answered][1..] == [];
    var s1 := Run(e, s, LookedUpDelete(s, u));
    assert s1 == State(s.lvs, s.calls + [DeleteCall(Managed(u), |s.lvs|, Remove(s.lvs[u].name))]);
    var before := WaitingDeleteTakesSuccessor(e, s1, |s.calls|, u, |s.lvs|, req);
  }
}
