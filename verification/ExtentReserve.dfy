/** When the reserve can be used up on a group that hands out whole extents, as LVM does. */
module ExtentReserve {
  import opened Status
  import opened MachineInts
  import opened VolumeStore
  import opened Provisioning
  import opened ProvisioningInvariant
  import opened Reservation
  import opened ReserveLimits

  /** The least whole number of extents of `unit` bytes that holds `n` bytes. */
  function RoundUp(n: nat, unit: nat): nat
    requires unit > 0
  {
    (n + unit - 1) / unit * unit
  }

  /** The most bytes that fit in whole extents. */
  function RoundDown(n: nat, unit: nat): nat
    requires unit > 0
  {
    n / unit * unit
  }

  /** Sizes are rounded up to extents, of which the smallest volume takes a whole number, and every size is legal. */
  ghost predicate Extents(e: Env, unit: nat) {
    && unit > 0 && MIN_VOLUME_SIZE_BYTES % unit == 0
    && forall c: nat :: e.round(c) == RoundUp(c, unit) && e.accepts(c)
  }

  /** A whole number of extents. */
  ghost predicate Whole(n: nat, unit: nat) {
    exists k: nat :: n == k * unit
  }

  lemma {:induction false} MulMono(a: nat, b: nat, unit: nat)
    requires a <= b
    ensures a * unit <= b * unit
    decreases b
  {
    if a < b {
      MulMono(a, b - 1, unit);
      assert b * unit == (b - 1) * unit + unit;
    }
  }

  /** Whole numbers of extents are an extent apart. */
  lemma Gap(a: nat, b: nat, unit: nat)
    requires a * unit < b * unit
    ensures a * unit + unit <= b * unit
  {
    if b <= a {
      MulMono(b, a, unit);
    } else {
      MulMono(a + 1, b, unit);
      assert (a + 1) * unit == a * unit + unit;
    }
  }

  lemma WholeGap(m: nat, n: nat, unit: nat)
    requires Whole(m, unit) && Whole(n, unit) && m < n
    ensures m + unit <= n
  {
    var a: nat :| m == a * unit;
    var b: nat :| n == b * unit;
    Gap(a, b, unit);
  }

  lemma Euclid(n: nat, unit: nat)
    requires unit > 0
    ensures n == n / unit * unit + n % unit && 0 <= n % unit < unit
    ensures Whole(n / unit * unit, unit)
  {
  }

  lemma WholeExactly(n: nat, unit: nat)
    requires unit > 0
    ensures Whole(n, unit) <==> n % unit == 0
  {
    Euclid(n, unit);
    if Whole(n, unit) && n % unit > 0 {
      WholeGap(n / unit * unit, n, unit);
    }
  }

  lemma WholeSum(m: nat, n: nat, unit: nat)
    requires Whole(m, unit) && Whole(n, unit)
    ensures Whole(m + n, unit)
  {
    var a: nat :| m == a * unit;
    var b: nat :| n == b * unit;
    assert (a + b) * unit == m + n;
  }

  lemma WholeRest(m: nat, n: nat, unit: nat)
    requires Whole(m, unit) && Whole(n, unit) && m <= n
    ensures Whole(n - m, unit)
  {
    var a: nat :| m == a * unit;
    var b: nat :| n == b * unit;
    if b < a {
      MulMono(b, a, unit);
      assert 0 * unit == n - m;
    } else {
      assert (b - a) * unit == n - m;
    }
  }

  /** Rounding down gives the greatest whole number of extents at most `n`. */
  lemma RoundDownGreatest(n: nat, unit: nat)
    requires unit > 0
    ensures RoundDown(n, unit) <= n && Whole(RoundDown(n, unit), unit)
    ensures forall m: nat :: Whole(m, unit) && m <= n ==> m <= RoundDown(n, unit)
  {
    Euclid(n, unit);
    hide Whole;
    forall m: nat | Whole(m, unit) && m <= n ensures m <= RoundDown(n, unit) {
      if RoundDown(n, unit) < m {
        WholeGap(RoundDown(n, unit), m, unit);
      }
    }
  }

  /** Rounding up gives the least whole number of extents at least `n`. */
  lemma RoundUpLeast(n: nat, unit: nat)
    requires unit > 0
    ensures n <= RoundUp(n, unit) && Whole(RoundUp(n, unit), unit)
    ensures forall m: nat :: Whole(m, unit) && n <= m ==> RoundUp(n, unit) <= m
  {
    Euclid(n + unit - 1, unit);
    hide Whole;
    forall m: nat | Whole(m, unit) && n <= m ensures RoundUp(n, unit) <= m {
      if m < RoundUp(n, unit) {
        WholeGap(m, RoundUp(n, unit), unit);
      }
    }
  }

  /** What volumes take is a whole number of extents, and at least MIN bytes each. */
  lemma {:induction false} RoundedWhole(e: Env, unit: nat, reqs: seq<CreateRequest>)
    requires Extents(e, unit) && forall r :: r in reqs ==> MIN_VOLUME_SIZE_BYTES <= Asked(r)
    ensures Whole(Rounded(e, reqs), unit) && Rounded(e, reqs) >= |reqs| * MIN_VOLUME_SIZE_BYTES
  {
    if reqs == [] {
      assert 0 * unit == 0;
    } else {
      var k := |reqs| - 1;
      RoundedWhole(e, unit, reqs[..k]);
      assert reqs[k] in reqs;
      RoundUpLeast(Asked(reqs[k]), unit);
      hide Whole;
      WholeSum(Rounded(e, reqs[..k]), e.round(Asked(reqs[k])), unit);
    }
  }

  /** Whole extents can exceed the usable bytes, and either these are not whole extents or two volumes fit. */
  predicate AtRisk(e: Env, unit: nat)
    requires unit > 0
  {
    && RoundDown(e.size, unit) > Usable(e) >= MIN_VOLUME_SIZE_BYTES
    && (Usable(e) % unit != 0 || 2 * MIN_VOLUME_SIZE_BYTES <= e.size)
  }

  /** On whole usable extents, a volume whose size fits beside the others fits as it is rounded. */
  lemma RoundedFits(before: nat, size: nat, usable: nat, unit: nat)
    requires unit > 0 && Whole(before, unit) && usable % unit == 0 && before + size <= usable
    ensures before + RoundUp(size, unit) <= usable
  {
    WholeExactly(usable, unit);
    WholeRest(before, usable, unit);
    RoundUpLeast(size, unit);
  }

  /**
   * Requests that need too much put the reserve at risk; if they also fit in turn, the usable bytes are not
   * whole extents.
   */
  lemma TooMuchAtRisk(e: Env, unit: nat, reqs: seq<CreateRequest>)
    requires Extents(e, unit) && TooMuch(e, reqs)
    ensures AtRisk(e, unit) && (FitInTurn(e, reqs) ==> Usable(e) % unit != 0)
  {
    var k := |reqs| - 1;
    var last := reqs[k];
    assert last in reqs && Admissible(e, last);
    var before := Rounded(e, reqs[..k]);
    RoundedWhole(e, unit, reqs);
    RoundedWhole(e, unit, reqs[..k]);
    assert k == 0 ==> before == 0;
    assert Rounded(e, reqs) == before + RoundUp(Asked(last), unit);
    RoundDownGreatest(e.size, unit);
    hide RoundUp, RoundDown, Eligible, Rounded, Asked;
    if Usable(e) % unit == 0 && before + Asked(last) <= Usable(e) {
      RoundedFits(before, Asked(last), Usable(e), unit);
    }
    hide Whole;
    MulMono(2, if k == 0 then 2 else |reqs|, MIN_VOLUME_SIZE_BYTES);
  }

  /** What two volumes are to be asked for with, together. */
  function Target(e: Env, unit: nat): nat
    requires unit > 0
  {
    if Usable(e) % unit != 0 then Usable(e)
    else if Usable(e) + unit < 2 * MIN_VOLUME_SIZE_BYTES then 2 * MIN_VOLUME_SIZE_BYTES
    else Usable(e) + unit
  }

  /** The half of it in whole extents, and the rest. */
  function SmallPart(e: Env, unit: nat): nat
    requires unit > 0
  {
    RoundDown(Target(e, unit) / 2, unit)
  }

  function LargePart(e: Env, unit: nat): nat
    requires unit > 0
  {
    SubOrZero(Target(e, unit), SmallPart(e, unit))
  }

  /** The parts are within the range check. */
  lemma PartsInRange(e: Env, unit: nat)
    requires Extents(e, unit) && AtRisk(e, unit) && 2 * MIN_VOLUME_SIZE_BYTES <= Target(e, unit)
    ensures Whole(SmallPart(e, unit), unit) && SmallPart(e, unit) + LargePart(e, unit) == Target(e, unit)
    ensures MIN_VOLUME_SIZE_BYTES <= SmallPart(e, unit) <= LargePart(e, unit) <= Usable(e)
  {
    RoundDownGreatest(Target(e, unit) / 2, unit);
    WholeExactly(MIN_VOLUME_SIZE_BYTES, unit);
    if unit > MIN_VOLUME_SIZE_BYTES {
      assert 0 * unit == 0;
      WholeGap(0, MIN_VOLUME_SIZE_BYTES, unit);
    }
    hide Whole, RoundDown, Extents;
  }

  /** Rounded, they exceed the usable bytes and fit in the group. */
  lemma PartsTooMuch(e: Env, unit: nat)
    requires Extents(e, unit) && AtRisk(e, unit) && 2 * MIN_VOLUME_SIZE_BYTES <= Target(e, unit)
    ensures RoundUp(SmallPart(e, unit), unit) == SmallPart(e, unit)
    ensures Usable(e) < SmallPart(e, unit) + RoundUp(LargePart(e, unit), unit) <= e.size
  {
    PartsInRange(e, unit);
    var x, y := SmallPart(e, unit), LargePart(e, unit);
    RoundUpLeast(x, unit);
    RoundUpLeast(y, unit);
    RoundDownGreatest(e.size, unit);
    WholeSum(x, RoundUp(y, unit), unit);
    WholeExactly(Usable(e), unit);
    WholeExactly(MIN_VOLUME_SIZE_BYTES, unit);
    var most := RoundDown(e.size, unit);
    if Usable(e) % unit == 0 {
      WholeGap(Usable(e), most, unit);
      WholeSum(MIN_VOLUME_SIZE_BYTES, MIN_VOLUME_SIZE_BYTES, unit);
    }
    hide RoundUp, RoundDown, Extents;
    assert x + y <= most;
    WholeRest(x, most, unit);
  }

  function Request(name: string, bytes: i64): CreateRequest {
    CreateRequest(name, 1, Some(CapacityRange(bytes, 0)))
  }

  /** One request for all the usable bytes, or two for the parts. */
  function Greedy(e: Env, unit: nat, a: string, b: string): seq<CreateRequest>
    requires unit > 0 && SmallPart(e, unit) < TWO_63 && LargePart(e, unit) < TWO_63
  {
    if Target(e, unit) < 2 * MIN_VOLUME_SIZE_BYTES then [Request(a, Target(e, unit))]
    else [Request(a, SmallPart(e, unit)), Request(b, LargePart(e, unit))]
  }

  lemma SmallerPart(e: Env, unit: nat)
    requires unit > 0
    ensures SmallPart(e, unit) <= LargePart(e, unit)
  {
    RoundDownGreatest(Target(e, unit) / 2, unit);
  }

  lemma OneTooMuch(e: Env, r: CreateRequest)
    requires Admissible(e, r) && e.accepts(Asked(r)) && Usable(e) < e.round(Asked(r)) <= e.size
    ensures TooMuch(e, [r]) && FitInTurn(e, [r])
  {
    assert [r] == [] + [r] && [r][..0] == [];
    RoundedSnoc(e, [], r);
  }

  lemma TwoTooMuch(e: Env, r: CreateRequest, q: CreateRequest)
    requires Admissible(e, r) && e.accepts(Asked(r)) && Admissible(e, q) && e.accepts(Asked(q))
    requires e.digest(r.name) != e.digest(q.name)
    requires Usable(e) < e.round(Asked(r)) + e.round(Asked(q)) <= e.size
    ensures TooMuch(e, [r, q])
    ensures e.round(Asked(r)) + Asked(q) <= Usable(e) ==> FitInTurn(e, [r, q])
  {
    assert Asked(r) <= Usable(e);
    hide Admissible, Asked;
    assert [r, q] == [r] + [q] && [r] == [] + [r];
    RoundedSnoc(e, [], r);
    RoundedSnoc(e, [r], q);
    assert [r, q][..0] == [] && [r, q][..1] == [r];
  }

  /** The one request that rounds beyond the usable bytes. */
  lemma SingleTooMuch(e: Env, unit: nat)
    requires Extents(e, unit) && AtRisk(e, unit) && Target(e, unit) < 2 * MIN_VOLUME_SIZE_BYTES
    ensures Target(e, unit) == Usable(e) < RoundUp(Usable(e), unit) <= e.size && Usable(e) % unit != 0
  {
    RoundUpLeast(Usable(e), unit);
    RoundDownGreatest(e.size, unit);
    WholeExactly(Usable(e), unit);
  }

  /** If the reserve is at risk, they need too much, and fit in turn unless the usable bytes are whole extents. */
  lemma GreedyTooMuch(e: Env, unit: nat, a: string, b: string)
    requires ValidEnv(e) && Extents(e, unit) && AtRisk(e, unit)
    requires SmallPart(e, unit) < TWO_63 && LargePart(e, unit) < TWO_63
    requires a != "" && b != "" && e.digest(a) != e.digest(b)
    ensures TooMuch(e, Greedy(e, unit, a, b))
    ensures Usable(e) % unit != 0 ==> FitInTurn(e, Greedy(e, unit, a, b))
  {
    if Target(e, unit) < 2 * MIN_VOLUME_SIZE_BYTES {
      SingleTooMuch(e, unit);
      hide RoundUp, RoundDown;
      OneTooMuch(e, Request(a, Target(e, unit)));
    } else {
      PartsInRange(e, unit);
      PartsTooMuch(e, unit);
      hide RoundUp, RoundDown, SmallPart, LargePart, Whole;
      TwoTooMuch(e, Request(a, SmallPart(e, unit)), Request(b, LargePart(e, unit)));
    }
  }

  /**
   * On a group of extents, an empty group can be overrun exactly when whole extents can exceed the usable
   * bytes, a volume passes the range check, and either the usable bytes are not whole extents or two volumes
   * fit; whatever the figure means. (Two names of different digests exist, and the parts fit the signed
   * 64-bit sizes of requests.)
   */
  lemma ExtentOverrunExactly(e: Env, unit: nat, a: string, b: string)
    requires ValidEnv(e) && Extents(e, unit) && LargePart(e, unit) < TWO_63
    requires a != "" && b != "" && e.digest(a) != e.digest(b)
    ensures (exists events :: Overrun(e, Run(e, EMPTY, events))) <==> AtRisk(e, unit)
  {
    ReserveOverrunExactly(e);
    if reqs :| TooMuch(e, reqs) {
      TooMuchAtRisk(e, unit, reqs);
    }
    if AtRisk(e, unit) {
      SmallerPart(e, unit);
      GreedyTooMuch(e, unit, a, b);
    }
  }

  /**
   * With creates served one at a time and the remaining room as the figure, exactly when, besides, the usable
   * bytes are not whole extents. So a reserve that leaves whole extents is kept by serial creates.
   */
  lemma SerialExtentOverrunExactly(e: Env, unit: nat, a: string, b: string)
    requires ValidEnv(e) && Extents(e, unit) && LargePart(e, unit) < TWO_63 && e.figure == Remaining
    requires a != "" && b != "" && e.digest(a) != e.digest(b)
    ensures (exists events :: AtMostInFlight(e, EMPTY, events, 1) && Overrun(e, Run(e, EMPTY, events)))
      <==> AtRisk(e, unit) && Usable(e) % unit != 0
  {
    SerialOverrunExactly(e);
    if reqs :| TooMuch(e, reqs) && FitInTurn(e, reqs) {
      TooMuchAtRisk(e, unit, reqs);
    }
    if AtRisk(e, unit) && Usable(e) % unit != 0 {
      SmallerPart(e, unit);
      GreedyTooMuch(e, unit, a, b);
    }
  }

  /** With extents of one byte, that is with no rounding, the risk is the plain one. */
  lemma ByteExtents(e: Env)
    ensures AtRisk(e, 1) <==> ReserveAtRisk(e)
  {
  }
}
